/** What every step of the pool protocol keeps: exclusive ownership, distinct
    names, conservation of slots, and what is known of a worker at each place. */
module Invariant {
  import opened Common
  import opened Protocol

  /** Each worker is in at most one place: once in the queue or with one ticket. */
  ghost predicate Exclusive(s: State) {
    && (forall i, j | 0 <= i < j < |s.free| :: s.free[i] != s.free[j])
    && (forall i | 0 <= i < |s.free| :: s.free[i] in s.heap)
    && (forall t | t in s.custody && HasWorker(s.custody[t]) ::
          s.custody[t].w in s.heap && s.custody[t].w !in s.free)
    && (forall t, u | t in s.custody && u in s.custody && t != u
                      && HasWorker(s.custody[t]) && HasWorker(s.custody[u]) ::
          s.custody[t].w != s.custody[u].w)
    && (forall t | t in s.custody :: t < s.tickets)
  }

  /** Serial numbers are never reused, so live names are distinct. */
  ghost predicate Named(s: State) {
    && (forall w | w in s.heap :: w <= s.serial)
    && (forall t | t in s.custody && s.custody[t].Spawning? ::
          s.custody[t].id <= s.serial && s.custody[t].id !in s.heap)
    && (forall t, u | t in s.custody && u in s.custody && t != u
                      && s.custody[t].Spawning? && s.custody[u].Spawning? ::
          s.custody[t].id != s.custody[u].id)
  }

  ghost predicate Conserved(placed: nat, s: State) {
    && |s.free| + |s.custody| + s.lost + s.dropped == placed
    && (s.dropped > 0 ==> s.closed)
  }

  /** A session's files are gone, except where a wipe failed to remove them. */
  ghost predicate NoSessionFiles(r: Worker) {
    forall p | p in r.files && !r.files[p].origin.ByRun? :: p in r.residue && r.residue[p] == r.files[p]
  }

  ghost predicate FreeOk(cfg: Config, r: Worker) {
    && r.live.None? && r.retires == 0 && r.leases == r.uses < cfg.maxUses
    && NoSessionFiles(r)
    && (cfg.wipePerRun ==> r.files == r.residue)
  }

  ghost predicate HoldingOk(cfg: Config, t: Ticket, c: Custodian, r: Worker)
    requires c.Holding?
  {
    && r.retires == 0 && r.leases == r.uses + 1 <= cfg.maxUses
    && (r.live.Some? ==> r.live.value == OriginOf(c.kind, t) && c.stage in {Running, Doomed})
    && (c.stage.Running? ==> r.live.Some?)
    && (c.stage.Wiped? ==> c.kind.Session? && r.files == r.residue)
    && (c.kind.Session? ==> !c.stage.Exited?)
    && (!c.kind.Session? ==> NoSessionFiles(r))
    && (cfg.wipePerRun && !c.kind.Session? && c.stage.Leased? ==> r.files == r.residue)
    && (cfg.wipePerRun && !c.kind.Session? && c.stage.Ready? ==> r.files == r.residue + Tag(c.inputs, ByRun(t)))
  }

  ghost predicate CustodyOk(cfg: Config, t: Ticket, c: Custodian, heap: map<Wid, Worker>)
    requires HasWorker(c) ==> c.w in heap
  {
    match c
    case Holding(_, w, _, _) => HoldingOk(cfg, t, c, heap[w])
    case Wiping(w, _) => heap[w].live.None? && heap[w].retires == 0 && heap[w].leases == heap[w].uses < cfg.maxUses
    case Deleting(w) => heap[w].retires == 1
    case Waiting(attempt, slept) => attempt <= 2 && slept == Slept(attempt)
    case Spawning(attempt, slept, _) => attempt <= 2 && slept == Slept(attempt)
  }

  // Seconds slept by a replacement before its given attempt.
  function Slept(attempt: nat): nat {
    if attempt == 0 then 0 else Slept(attempt - 1) + Backoff(attempt - 1)
  }

  ghost predicate QueueOk(cfg: Config, s: State)
    requires Exclusive(s)
  {
    forall i | 0 <= i < |s.free| :: FreeOk(cfg, s.heap[s.free[i]])
  }

  ghost predicate CustodiesOk(cfg: Config, s: State)
    requires Exclusive(s)
  {
    forall t | t in s.custody :: CustodyOk(cfg, t, s.custody[t], s.heap)
  }

  ghost predicate WorkersOk(cfg: Config, s: State) {
    forall w | w in s.heap :: s.heap[w].retires <= 1 && s.heap[w].leases <= cfg.maxUses
  }

  ghost predicate Statuses(cfg: Config, s: State)
    requires Exclusive(s)
  {
    QueueOk(cfg, s) && CustodiesOk(cfg, s) && WorkersOk(cfg, s)
  }

  ghost predicate Inv(cfg: Config, placed: nat, s: State) {
    && ValidConfig(cfg) && Exclusive(s) && Named(s) && Conserved(placed, s) && Statuses(cfg, s)
  }

  lemma InitInv(cfg: Config, placed: nat, s: State)
    requires Init(cfg, placed, s)
    ensures Inv(cfg, placed, s)
  {}

  // The ticket `t` keeps its worker or lets go of it; nothing else moves.
  lemma ExclusiveLocal(s: State, s': State, t: Ticket)
    requires Exclusive(s) && t in s.custody && t in s'.custody
    requires s'.free == s.free && s.heap.Keys <= s'.heap.Keys && s'.tickets == s.tickets
    requires s'.custody == s.custody[t := s'.custody[t]]
    requires HasWorker(s'.custody[t]) ==> HasWorker(s.custody[t]) && s'.custody[t].w == s.custody[t].w
    ensures Exclusive(s')
  {}

  lemma ExclusiveDrop(s: State, t: Ticket)
    requires Exclusive(s)
    ensures Exclusive(Drop(s, t))
  {}

  lemma ExclusiveLeave(s: State, t: Ticket)
    requires Exclusive(s) && t in s.custody && HasWorker(s.custody[t])
    ensures Exclusive(Leave(s, t))
  {
    ExclusiveDrop(s, t);
    var s' := Leave(s, t);
    forall u | u in s'.custody && HasWorker(s'.custody[u])
      ensures s'.custody[u].w in s'.heap && s'.custody[u].w !in s'.free
    {
      assert s.custody[u].w != s.custody[t].w;
    }
  }

  lemma ExclusivePop(cfg: Config, s: State, e: Event)
    requires Exclusive(s) && Enabled(cfg, s, e) && (e.Lease? || e.Drain?)
    ensures Exclusive(Apply(cfg, s, e))
  {
    assert s.free == [s.free[0]] + s.free[1..];
    assert forall i | 0 <= i < |s.free[1..]| :: s.free[1..][i] == s.free[i + 1];
  }

  lemma ExclusiveReleased(cfg: Config, s: State, t: Ticket, retire: bool, aged: bool)
    requires Exclusive(s) && t in s.custody && s.custody[t].Holding?
    ensures Exclusive(Released(cfg, s, t, retire, aged))
  {
    var w := s.custody[t].w;
    var s1 := SetWorker(s, w, s.heap[w].(uses := s.heap[w].uses + 1));
    ExclusiveLocal(s, s1, t);
    ExclusiveLeave(s1, t);
    var s' := Released(cfg, s, t, retire, aged);
    if t in s'.custody {
      ExclusiveLocal(s, s', t);
    }
  }

  lemma ExclusiveSpawnOk(s: State, t: Ticket)
    requires Exclusive(s) && Named(s) && t in s.custody && s.custody[t].Spawning?
    ensures Exclusive(Drop(s, t).(heap := s.heap[s.custody[t].id := FRESH_WORKER], free := s.free + [s.custody[t].id]))
  {
    ExclusiveDrop(s, t);
  }

  // The shapes of the steps that leave the queue alone: what happens to the ticket
  // and to its worker.
  lemma MovesShape(cfg: Config, s: State, e: Event)
    requires Enabled(cfg, s, e) && Moves(e)
    ensures var s', c := Apply(cfg, s, e), s.custody[e.t];
            && s'.free == s.free && s'.tickets == s.tickets && e.t in s'.custody
            && s'.custody == s.custody[e.t := s'.custody[e.t]]
            && s'.custody[e.t].Holding? && s'.custody[e.t].w == c.w
            && c.w in s'.heap && s'.heap == s.heap[c.w := s'.heap[c.w]]
  {}

  /** The thread of `t` lets its worker go nowhere, or keeps it; nobody else is
      concerned. */
  ghost predicate Settles(s: State, s': State, t: Ticket) {
    && s'.free == s.free && s'.tickets == s.tickets && t in s.custody
    && (if t in s'.custody
        then s'.custody == s.custody[t := s'.custody[t]]
             && (HasWorker(s'.custody[t]) ==> HasWorker(s.custody[t]) && s'.custody[t].w == s.custody[t].w)
        else s'.custody == s.custody - {t})
    && (s'.heap == s.heap
        || (HasWorker(s.custody[t]) && s.custody[t].w in s'.heap
            && s'.heap == s.heap[s.custody[t].w := s'.heap[s.custody[t].w]]))
  }

  predicate GivesUp(e: Event) { e.RetireNow? || e.WipeCheck? || e.WipeFail? }

  lemma GivesUpSettles(cfg: Config, s: State, e: Event)
    requires Exclusive(s) && Enabled(cfg, s, e) && GivesUp(e)
    ensures Settles(s, Apply(cfg, s, e), e.t)
  {}

  lemma ReplacesSettles(cfg: Config, s: State, e: Event)
    requires Exclusive(s) && Enabled(cfg, s, e) && Replaces(e) && !e.SpawnOk?
    ensures Settles(s, Apply(cfg, s, e), e.t)
  {}

  lemma ExclusiveSettles(s: State, s': State, t: Ticket)
    requires Exclusive(s) && Settles(s, s', t)
    ensures Exclusive(s')
  {
    if t in s'.custody {
      ExclusiveLocal(s, s', t);
    } else {
      ExclusiveDrop(s, t);
    }
  }

  lemma ExclusiveWipeOk(cfg: Config, s: State, e: Event)
    requires Exclusive(s) && Enabled(cfg, s, e) && e.WipeOk?
    ensures Exclusive(Apply(cfg, s, e))
  {
    var w := s.custody[e.t].w;
    var kept := Keep(s.heap[w].files, e.left);
    var s1 := SetWorker(s, w, s.heap[w].(files := kept, residue := kept));
    ExclusiveLocal(s, s1, e.t);
    ExclusiveLeave(s1, e.t);
  }

  lemma ExclusiveStep(cfg: Config, s: State, e: Event)
    requires Exclusive(s) && Named(s) && Enabled(cfg, s, e)
    ensures Exclusive(Apply(cfg, s, e))
  {
    if e.Lease? || e.Drain? {
      ExclusivePop(cfg, s, e);
    } else if e.Release? {
      ExclusiveReleased(cfg, s, e.t, e.retire, e.aged);
    } else if e.SpawnOk? {
      ExclusiveSpawnOk(s, e.t);
    } else if e.WipeOk? {
      ExclusiveWipeOk(cfg, s, e);
    } else if Moves(e) {
      MovesShape(cfg, s, e);
      ExclusiveLocal(s, Apply(cfg, s, e), e.t);
    } else if GivesUp(e) {
      GivesUpSettles(cfg, s, e);
      ExclusiveSettles(s, Apply(cfg, s, e), e.t);
    } else if Replaces(e) {
      ReplacesSettles(cfg, s, e);
      ExclusiveSettles(s, Apply(cfg, s, e), e.t);
    }
  }

  // No pod name is drawn or used.
  lemma NamedLocal(s: State, s': State, t: Ticket)
    requires Named(s) && Local(s, s', t) && s'.serial == s.serial && s'.heap.Keys == s.heap.Keys
    requires t in s'.custody ==> !s'.custody[t].Spawning?
    ensures Named(s')
  {}

  // Ticket `t` draws the next name.
  lemma NamedNext(s: State, s': State, t: Ticket)
    requires Named(s) && Local(s, s', t) && s'.heap == s.heap && s'.serial == s.serial + 1
    requires t in s'.custody && s'.custody[t].Spawning? && s'.custody[t].id == s.serial + 1
    ensures Named(s')
  {}

  lemma NamedSpawned(s: State, s': State, t: Ticket)
    requires Named(s) && Local(s, s', t) && s'.serial == s.serial && t !in s'.custody
    requires t in s.custody && s.custody[t].Spawning? && s'.heap.Keys == s.heap.Keys + {s.custody[t].id}
    ensures Named(s')
  {}

  lemma NamedStep(cfg: Config, s: State, e: Event)
    requires Named(s) && Enabled(cfg, s, e)
    ensures Named(Apply(cfg, s, e))
  {
    if Moves(e) {
      MovesLocal(cfg, s, e);
      NamedLocal(s, Apply(cfg, s, e), e.t);
    } else if Returns(e) {
      ReturnsLocal(cfg, s, e);
      NamedLocal(s, Apply(cfg, s, e), e.t);
    } else if Replaces(e) {
      NamedReplaces(cfg, s, e);
    }
  }

  lemma NamedReplaces(cfg: Config, s: State, e: Event)
    requires Named(s) && Enabled(cfg, s, e) && Replaces(e)
    ensures Named(Apply(cfg, s, e))
  {
    var s' := Apply(cfg, s, e);
    ReplacesLocal(cfg, s, e);
    if e.SpawnOk? {
      NamedSpawned(s, s', e.t);
    } else if e.t in s'.custody && s'.custody[e.t].Spawning? {
      NamedNext(s, s', e.t);
    } else {
      NamedLocal(s, s', e.t);
    }
  }

  lemma ConservedMoves(cfg: Config, placed: nat, s: State, e: Event)
    requires Conserved(placed, s) && Enabled(cfg, s, e) && Moves(e)
    ensures Conserved(placed, Apply(cfg, s, e))
  {}

  lemma ConservedReturns(cfg: Config, placed: nat, s: State, e: Event)
    requires Conserved(placed, s) && Enabled(cfg, s, e) && Returns(e)
    ensures Conserved(placed, Apply(cfg, s, e))
  {
    assert (s.custody - {e.t}).Keys == s.custody.Keys - {e.t};
  }

  lemma ConservedReplaces(cfg: Config, placed: nat, s: State, e: Event)
    requires Conserved(placed, s) && Enabled(cfg, s, e) && Replaces(e)
    ensures Conserved(placed, Apply(cfg, s, e))
  {
    assert (s.custody - {e.t}).Keys == s.custody.Keys - {e.t};
  }

  lemma ConservedStep(cfg: Config, placed: nat, s: State, e: Event)
    requires Inv(cfg, placed, s) && Enabled(cfg, s, e)
    ensures Conserved(placed, Apply(cfg, s, e))
  {
    if Moves(e) {
      ConservedMoves(cfg, placed, s, e);
    } else if Returns(e) {
      ConservedReturns(cfg, placed, s, e);
    } else if Replaces(e) {
      ConservedReplaces(cfg, placed, s, e);
    }
  }

  // ---- what is known of each worker -----------------------------------------

  // Only ticket `t` and its worker change.
  lemma CustodiesLocal(cfg: Config, s: State, s': State, t: Ticket)
    requires Exclusive(s) && CustodiesOk(cfg, s) && Exclusive(s') && Settles(s, s', t)
    requires t in s'.custody ==> CustodyOk(cfg, t, s'.custody[t], s'.heap)
    ensures CustodiesOk(cfg, s')
  {
    forall u | u in s'.custody
      ensures CustodyOk(cfg, u, s'.custody[u], s'.heap)
    {
      if u != t {
        assert CustodyOk(cfg, u, s.custody[u], s.heap);
      }
    }
  }

  lemma QueueLocal(cfg: Config, s: State, s': State, t: Ticket)
    requires Exclusive(s) && QueueOk(cfg, s) && Exclusive(s') && Settles(s, s', t)
    ensures QueueOk(cfg, s')
  {}

  lemma StatusesLocal(cfg: Config, s: State, s': State, t: Ticket)
    requires Exclusive(s) && Statuses(cfg, s) && Exclusive(s') && Settles(s, s', t)
    requires t in s'.custody ==> CustodyOk(cfg, t, s'.custody[t], s'.heap)
    requires HasWorker(s.custody[t]) && s.custody[t].w in s'.heap ==>
               s'.heap[s.custody[t].w].retires <= 1 && s'.heap[s.custody[t].w].leases <= cfg.maxUses
    ensures Statuses(cfg, s')
  {
    CustodiesLocal(cfg, s, s', t);
    QueueLocal(cfg, s, s', t);
  }

  // Every other ticket keeps its worker as it was.
  lemma CustodiesKept(cfg: Config, s: State, s': State)
    requires Exclusive(s) && CustodiesOk(cfg, s) && Exclusive(s')
    requires forall u | u in s'.custody ::
               && u in s.custody && s'.custody[u] == s.custody[u]
               && (HasWorker(s.custody[u]) ==> s'.heap[s.custody[u].w] == s.heap[s.custody[u].w])
    ensures CustodiesOk(cfg, s')
  {
    forall u | u in s'.custody
      ensures CustodyOk(cfg, u, s'.custody[u], s'.heap)
    {
      assert CustodyOk(cfg, u, s.custody[u], s.heap);
    }
  }

  lemma QueueAppend(cfg: Config, s: State, s': State, w: Wid)
    requires Exclusive(s) && QueueOk(cfg, s) && Exclusive(s') && s'.free == s.free + [w]
    requires FreeOk(cfg, s'.heap[s'.free[|s.free|]])
    requires forall i | 0 <= i < |s.free| :: s.free[i] in s'.heap && s'.heap[s.free[i]] == s.heap[s.free[i]]
    ensures QueueOk(cfg, s')
  {
    forall i | 0 <= i < |s'.free|
      ensures FreeOk(cfg, s'.heap[s'.free[i]])
    {
      if i < |s.free| {
        assert s'.free[i] == s.free[i];
      }
    }
  }

  // The worker of `t`, changed to `r`, goes to the queue.
  lemma StatusesLeave(cfg: Config, s: State, t: Ticket, r: Worker)
    requires Exclusive(s) && Statuses(cfg, s) && t in s.custody && HasWorker(s.custody[t])
    requires FreeOk(cfg, r)
    ensures var s' := Leave(SetWorker(s, s.custody[t].w, r), t); Exclusive(s') && Statuses(cfg, s')
  {
    var w := s.custody[t].w;
    var s1 := SetWorker(s, w, r);
    ExclusiveLocal(s, s1, t);
    ExclusiveLeave(s1, t);
    var s' := Leave(s1, t);
    CustodiesKept(cfg, s, s');
    QueueAppend(cfg, s, s', w);
  }

  lemma PopQueue(cfg: Config, s: State, s': State)
    requires Exclusive(s) && QueueOk(cfg, s) && Exclusive(s') && s.free != [] && s'.free == s.free[1..]
    requires forall w | w in s.heap && w != s.free[0] :: w in s'.heap && s'.heap[w] == s.heap[w]
    ensures QueueOk(cfg, s')
  {
    forall i | 0 <= i < |s'.free|
      ensures FreeOk(cfg, s'.heap[s'.free[i]])
    {
      assert s'.free[i] == s.free[i + 1] && s.free[i + 1] != s.free[0];
    }
  }

  lemma PopCustody(cfg: Config, s: State, e: Event)
    requires Exclusive(s) && Statuses(cfg, s) && Enabled(cfg, s, e) && e.Lease?
    requires Exclusive(Apply(cfg, s, e))
    ensures CustodiesOk(cfg, Apply(cfg, s, e))
  {
    var s' := Apply(cfg, s, e);
    assert FreeOk(cfg, s.heap[s.free[0]]);
    forall u | u in s'.custody
      ensures CustodyOk(cfg, u, s'.custody[u], s'.heap)
    {
      if u in s.custody {
        assert CustodyOk(cfg, u, s.custody[u], s.heap);
        assert HasWorker(s.custody[u]) ==> s.custody[u].w != s.free[0];
      }
    }
  }

  lemma PopWorkers(cfg: Config, s: State, e: Event)
    requires Exclusive(s) && QueueOk(cfg, s) && WorkersOk(cfg, s) && Enabled(cfg, s, e) && e.Lease?
    ensures WorkersOk(cfg, Apply(cfg, s, e))
  {
    assert FreeOk(cfg, s.heap[s.free[0]]);
  }

  lemma StatusesPop(cfg: Config, s: State, e: Event)
    requires Exclusive(s) && Named(s) && Statuses(cfg, s) && Enabled(cfg, s, e) && (e.Lease? || e.Drain?)
    ensures Exclusive(Apply(cfg, s, e)) && Statuses(cfg, Apply(cfg, s, e))
  {
    ExclusiveStep(cfg, s, e);
    PopQueue(cfg, s, Apply(cfg, s, e));
    if e.Lease? {
      PopCustody(cfg, s, e);
      PopWorkers(cfg, s, e);
    } else {
      CustodiesKept(cfg, s, Apply(cfg, s, e));
    }
  }

  // What a release makes of the worker it is given.
  lemma ReleasedWorker(cfg: Config, s: State, t: Ticket, retire: bool, aged: bool)
    requires Exclusive(s) && t in s.custody && s.custody[t].Holding?
    requires HoldingOk(cfg, t, s.custody[t], s.heap[s.custody[t].w])
    requires Enabled(cfg, s, Release(t, retire, aged))
    ensures var s', w := Released(cfg, s, t, retire, aged), s.custody[t].w;
            && w in s'.heap && s'.heap[w].retires <= 1 && s'.heap[w].leases <= cfg.maxUses
            && if t in s'.custody then Settles(s, s', t) && CustodyOk(cfg, t, s'.custody[t], s'.heap)
               else s' == Leave(SetWorker(s, w, s'.heap[w]), t) && FreeOk(cfg, s'.heap[w])
  {}

  lemma StatusesReleased(cfg: Config, s: State, e: Event)
    requires Exclusive(s) && Named(s) && Statuses(cfg, s) && Enabled(cfg, s, e) && e.Release?
    ensures Exclusive(Apply(cfg, s, e)) && Statuses(cfg, Apply(cfg, s, e))
  {
    ExclusiveStep(cfg, s, e);
    var s', t := Apply(cfg, s, e), e.t;
    assert CustodyOk(cfg, t, s.custody[t], s.heap);
    ReleasedWorker(cfg, s, t, e.retire, e.aged);
    if t in s'.custody {
      StatusesLocal(cfg, s, s', t);
    } else {
      StatusesLeave(cfg, s, t, s'.heap[s.custody[t].w]);
    }
  }

  lemma StatusesWrites(cfg: Config, s: State, e: Event)
    requires Exclusive(s) && Named(s) && Statuses(cfg, s) && Enabled(cfg, s, e) && e.UserWrites?
    ensures Exclusive(Apply(cfg, s, e)) && Statuses(cfg, Apply(cfg, s, e))
  {
    ExclusiveStep(cfg, s, e);
    var s' := Apply(cfg, s, e);
    forall u | u in s'.custody
      ensures CustodyOk(cfg, u, s'.custody[u], s'.heap)
    {
      assert CustodyOk(cfg, u, s.custody[u], s.heap);
    }
  }

  lemma StatusesWiped(cfg: Config, s: State, e: Event)
    requires Exclusive(s) && Statuses(cfg, s) && Enabled(cfg, s, e) && e.WipeOk?
    ensures Exclusive(Apply(cfg, s, e)) && Statuses(cfg, Apply(cfg, s, e))
  {
    assert CustodyOk(cfg, e.t, s.custody[e.t], s.heap);
    var w := s.custody[e.t].w;
    var kept := Keep(s.heap[w].files, e.left);
    StatusesLeave(cfg, s, e.t, s.heap[w].(files := kept, residue := kept));
  }

  lemma StatusesSpawned(cfg: Config, s: State, e: Event)
    requires ValidConfig(cfg) && Exclusive(s) && Named(s) && Statuses(cfg, s) && Enabled(cfg, s, e) && e.SpawnOk?
    ensures Exclusive(Apply(cfg, s, e)) && Statuses(cfg, Apply(cfg, s, e))
  {
    ExclusiveStep(cfg, s, e);
    var s', id := Apply(cfg, s, e), s.custody[e.t].id;
    CustodiesKept(cfg, s, s');
    QueueAppend(cfg, s, s', id);
  }

  // A holder's own step leaves it in order.
  lemma HolderOk(cfg: Config, s: State, e: Event)
    requires Enabled(cfg, s, e) && Moves(e)
    requires HoldingOk(cfg, e.t, s.custody[e.t], s.heap[s.custody[e.t].w])
    ensures var s', w := Apply(cfg, s, e), s.custody[e.t].w;
            && e.t in s'.custody && s'.custody[e.t].Holding? && w in s'.heap
            && HoldingOk(cfg, e.t, s'.custody[e.t], s'.heap[w])
  {}

  lemma StatusesHolder(cfg: Config, s: State, e: Event)
    requires Exclusive(s) && Named(s) && Statuses(cfg, s) && Enabled(cfg, s, e) && Moves(e)
    ensures Exclusive(Apply(cfg, s, e)) && Statuses(cfg, Apply(cfg, s, e))
  {
    ExclusiveStep(cfg, s, e);
    assert CustodyOk(cfg, e.t, s.custody[e.t], s.heap);
    MovesShape(cfg, s, e);
    HolderOk(cfg, s, e);
    StatusesLocal(cfg, s, Apply(cfg, s, e), e.t);
  }

  lemma GivenUpOk(cfg: Config, s: State, e: Event)
    requires Exclusive(s) && Enabled(cfg, s, e) && GivesUp(e)
    requires CustodyOk(cfg, e.t, s.custody[e.t], s.heap) && WorkersOk(cfg, s)
    ensures var s', w := Apply(cfg, s, e), s.custody[e.t].w;
            && w in s'.heap && s'.heap[w].retires <= 1 && s'.heap[w].leases <= cfg.maxUses
            && (e.t in s'.custody ==> CustodyOk(cfg, e.t, s'.custody[e.t], s'.heap))
  {}

  lemma StatusesGivenUp(cfg: Config, s: State, e: Event)
    requires Exclusive(s) && Named(s) && Statuses(cfg, s) && Enabled(cfg, s, e) && GivesUp(e)
    ensures Exclusive(Apply(cfg, s, e)) && Statuses(cfg, Apply(cfg, s, e))
  {
    ExclusiveStep(cfg, s, e);
    assert CustodyOk(cfg, e.t, s.custody[e.t], s.heap);
    GivesUpSettles(cfg, s, e);
    GivenUpOk(cfg, s, e);
    StatusesLocal(cfg, s, Apply(cfg, s, e), e.t);
  }

  lemma ReplacingOk(cfg: Config, s: State, e: Event)
    requires Exclusive(s) && Enabled(cfg, s, e) && Replaces(e) && !e.SpawnOk?
    requires CustodyOk(cfg, e.t, s.custody[e.t], s.heap)
    ensures var s' := Apply(cfg, s, e);
            s'.heap == s.heap && (e.t in s'.custody ==> CustodyOk(cfg, e.t, s'.custody[e.t], s'.heap))
  {}

  lemma StatusesReplacing(cfg: Config, s: State, e: Event)
    requires Exclusive(s) && Named(s) && Statuses(cfg, s) && Enabled(cfg, s, e) && Replaces(e) && !e.SpawnOk?
    ensures Exclusive(Apply(cfg, s, e)) && Statuses(cfg, Apply(cfg, s, e))
  {
    ExclusiveStep(cfg, s, e);
    assert CustodyOk(cfg, e.t, s.custody[e.t], s.heap);
    ReplacesSettles(cfg, s, e);
    ReplacingOk(cfg, s, e);
    StatusesLocal(cfg, s, Apply(cfg, s, e), e.t);
  }

  lemma StatusesStep(cfg: Config, s: State, e: Event)
    requires ValidConfig(cfg) && Exclusive(s) && Named(s) && Statuses(cfg, s) && Enabled(cfg, s, e)
    ensures Exclusive(Apply(cfg, s, e)) && Statuses(cfg, Apply(cfg, s, e))
  {
    if e.Lease? || e.Drain? {
      StatusesPop(cfg, s, e);
    } else if e.Release? {
      StatusesReleased(cfg, s, e);
    } else if e.UserWrites? {
      StatusesWrites(cfg, s, e);
    } else if e.WipeOk? {
      StatusesWiped(cfg, s, e);
    } else if e.SpawnOk? {
      StatusesSpawned(cfg, s, e);
    } else if Moves(e) {
      StatusesHolder(cfg, s, e);
    } else if Replaces(e) {
      StatusesReplacing(cfg, s, e);
    } else if GivesUp(e) {
      StatusesGivenUp(cfg, s, e);
    } else {
      ExclusiveStep(cfg, s, e);
    }
  }

  lemma InvStep(cfg: Config, placed: nat, s: State, e: Event)
    requires Inv(cfg, placed, s) && Enabled(cfg, s, e)
    ensures Inv(cfg, placed, Apply(cfg, s, e))
  {
    ExclusiveStep(cfg, s, e);
    NamedStep(cfg, s, e);
    ConservedStep(cfg, placed, s, e);
    StatusesStep(cfg, s, e);
  }
}

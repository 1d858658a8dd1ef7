/** The pool object: the free queue, the workers and the threads that move them.

    Other threads may act between any two atomic actions of a method; `Interfere`
    is where they do. Every action is recorded, and `Valid` says the record is a
    legal run of the protocol that ends in the object's present state, so all
    that is proved of runs holds of the object. */
module Pool {
  import opened Common
  import opened Protocol
  import opened Invariant
  import opened Guarantees
  import Disks
  import Workspace

  /** The step without the files a failure leaves, which nobody can foretell. */
  function Shape(e: Event): Event {
    match e
    case Fail(t, _) => Fail(t, map[])
    case WipeFail(t, _) => WipeFail(t, map[])
    case _ => e
  }

  /** The steps of a log that are `t`'s own, in shape. */
  ghost function Own(log: seq<Event>, t: Ticket): seq<Event> {
    if log == [] then []
    else (if Actor(log[0]) == Some(t) then [Shape(log[0])] else []) + Own(log[1..], t)
  }

  lemma {:induction false} OwnConcat(a: seq<Event>, b: seq<Event>, t: Ticket)
    ensures Own(a + b, t) == Own(a, t) + Own(b, t)
  {
    if a == [] {
      assert a + b == b;
    } else {
      assert (a + b)[0] == a[0] && (a + b)[1..] == a[1..] + b;
      OwnConcat(a[1..], b, t);
      var first := if Actor(a[0]) == Some(t) then [Shape(a[0])] else [];
      assert first + (Own(a[1..], t) + Own(b, t)) == (first + Own(a[1..], t)) + Own(b, t);
    }
  }

  lemma OwnOther(a: seq<Event>, e: Event, t: Ticket)
    requires Actor(e) != Some(t)
    ensures Own(a + [e], t) == Own(a, t)
  {
    OwnConcat(a, [e], t);
    assert [e][1..] == [];
  }

  lemma OwnNext(a: seq<Event>, e: Event, t: Ticket)
    requires Actor(e) == Some(t)
    ensures Own(a + [e], t) == Own(a, t) + [Shape(e)]
  {
    OwnConcat(a, [e], t);
    assert [e][1..] == [];
  }

  lemma NothingLeftBefore(before: seq<Event>, log: seq<Event>)
    requires before <= log
    ensures NothingLeft(log) ==> NothingLeft(before)
  {}

  lemma KeptOn(a: State, b: State, c: State, t: Ticket)
    requires Kept(a, b, t) && Kept(b, c, t)
    ensures Kept(a, c, t)
  {}

  lemma StaysClosed(cfg: Config, s: State, e: Event)
    requires Enabled(cfg, s, e)
    ensures s.closed ==> Apply(cfg, s, e).closed
  {}

  lemma ActorDrawn(cfg: Config, s: State, e: Event)
    requires Exclusive(s) && Enabled(cfg, s, e)
    ensures s.tickets <= Apply(cfg, s, e).tickets
    ensures Actor(e).Some? ==> e.t < Apply(cfg, s, e).tickets
  {}

  /** A ticket not yet drawn has no steps in the log. */
  lemma {:induction false} NoStepsYet(cfg: Config, placed: nat, s: State, log: seq<Event>, t: Ticket)
    requires Inv(cfg, placed, s) && Legal(cfg, s, log) && t >= Replay(cfg, s, log).tickets
    ensures s.tickets <= Replay(cfg, s, log).tickets && Own(log, t) == []
    decreases |log|
  {
    if log != [] {
      ActorDrawn(cfg, s, log[0]);
      InvStep(cfg, placed, s, log[0]);
      NoStepsYet(cfg, placed, Apply(cfg, s, log[0]), log[1..], t);
    }
  }

  // What the cluster and the sandboxed code do with one command: the environment
  // check, the upload, the connection, the command, the collector. `landed` is
  // where files end up whose keys are not normal relative paths.
  datatype Sending = Sent(landed: map<Str, Bytes>) | SendFails(partial: Files)
  datatype Exec = Exits | TimesOut | Raises
  datatype Plan = Plan(envOk: bool, sending: Sending, connects: bool, exec: Exec, collects: bool)

  /** The files of an upload that succeeds, by the paths they land at. */
  function Landed(input: map<Str, Bytes>, sending: Sending): map<Str, Bytes> {
    if Disks.Normal(input) || sending.SendFails? then input else sending.landed
  }

  ghost predicate Fits(cap: nat, input: map<Str, Bytes>) { input == map[] || Workspace.DirBytes(input) <= cap }

  /** The plan lets the command start. */
  ghost predicate Staged(cap: nat, plan: Plan, input: map<Str, Bytes>) {
    Fits(cap, input) && plan.envOk && (input == map[] || plan.sending.Sent?) && plan.connects
  }

  ghost predicate Completes(cap: nat, plan: Plan, input: map<Str, Bytes>) {
    Staged(cap, plan, input) && plan.exec.Exits? && plan.collects
  }

  ghost predicate Overruns(cap: nat, plan: Plan, input: map<Str, Bytes>) {
    Staged(cap, plan, input) && plan.exec.TimesOut?
  }

  /** The own steps of a staged command and its collector. */
  function RunSteps(t: Ticket, plan: Plan): seq<Event> {
    [Start(t)]
    + if !plan.exec.Exits? then [Fail(t, map[])]
      else [Exit(t)] + if plan.collects then [] else [Fail(t, map[])]
  }

  /** The own steps of a call from its checks to its last command. */
  ghost function CallSteps(cap: nat, t: Ticket, input: map<Str, Bytes>, plan: Plan): seq<Event> {
    if !Fits(cap, input) || !plan.envOk || (input != map[] && plan.sending.SendFails?) then [Fail(t, map[])]
    else
      [Event.Upload(t, Landed(input, plan.sending))]
      + if !plan.connects then [Fail(t, map[])] else RunSteps(t, plan)
  }

  datatype Executed = Done | Timeout | Broken
  datatype Outcome = Refused | NoWorker | Finished(w: Wid) | TimedOut(w: Wid) | Failed(w: Wid)

  // How a wipe thread or a replacement thread ended.
  datatype Wiped = Returned | Dirty | GivenUp
  datatype Replaced = Back(id: Wid) | SlotLost | PoolClosed

  /** `k` failed attempts of a replacement. */
  ghost function Tries(t: Ticket, k: nat): seq<Event> {
    if k == 0 then [] else Tries(t, k - 1) + [SpawnCheck(t), SpawnFail(t)]
  }

  lemma TriesNext(t: Ticket, k: nat, own: seq<Event>)
    ensures own + Tries(t, k) + [SpawnCheck(t)] + [SpawnFail(t)] == own + Tries(t, k + 1)
  {
    assert Tries(t, k + 1) == Tries(t, k) + [SpawnCheck(t), SpawnFail(t)];
  }

  predicate FailsFirst(spawns: seq<bool>, k: nat) {
    k <= |spawns| && forall j | 0 <= j < k :: !spawns[j]
  }

  class SandboxPool {
    const cfg: Config
    const placed: nat
    ghost const init: State
    const uploadCap: nat   // `max_upload_bytes`

    var free: seq<Wid>
    var workers: map<Wid, Worker>
    var threads: map<Ticket, Custodian>
    var serial: nat
    var tickets: nat
    var lost: nat
    var dropped: nat
    var closed: bool
    // What other threads will do, if they can; None ends a scheduling point.
    var others: seq<Option<Event>>
    ghost var log: seq<Event>

    function View(): State
      reads this
    {
      State(free, workers, threads, serial, tickets, lost, dropped, closed)
    }

    ghost predicate Valid()
      reads this
    {
      Init(cfg, placed, init) && Legal(cfg, init, log) && View() == Replay(cfg, init, log)
    }

    lemma Holds()
      requires Valid()
      ensures Inv(cfg, placed, View())
    {
      InitInv(cfg, placed, init);
      RunInv(cfg, placed, init, log);
    }

    /** The pool as `start` leaves it: the placed workers queued in order. */
    constructor (cfg: Config, uploadCap: nat, ids: seq<Wid>, last: nat, others: seq<Option<Event>>)
      requires ValidConfig(cfg) && |ids| <= cfg.poolSize
      requires forall i, j | 0 <= i < j < |ids| :: ids[i] != ids[j]
      requires forall i | 0 <= i < |ids| :: ids[i] <= last
      ensures Valid() && free == ids && serial == last && log == [] && !closed
    {
      this.cfg := cfg;
      this.uploadCap := uploadCap;
      this.placed := |ids|;
      this.free := ids;
      this.workers := map w | w in ids :: FRESH_WORKER;
      this.threads := map[];
      this.serial := last;
      this.tickets, this.lost, this.dropped := 0, 0, 0;
      this.closed := false;
      this.others := others;
      this.log := [];
      this.init := State(ids, map w | w in ids :: FRESH_WORKER, map[], last, 0, 0, 0, false);
    }

    ghost method Commit(s: State, e: Event)
      requires Init(cfg, placed, init) && Legal(cfg, init, log) && s == Replay(cfg, init, log)
      requires Enabled(cfg, s, e) && View() == Apply(cfg, s, e)
      modifies this`log
      ensures Valid() && log == old(log) + [e]
    {
      assert [e][1..] == [];
      Extend(cfg, init, log, [e]);
      log := log + [e];
    }

    /** One atomic action, carried out as the protocol describes it: the effects
        of the pod, and the steps of other threads. */
    method Perform(e: Event)
      requires Valid() && Enabled(cfg, View(), e)
      modifies this
      ensures Valid() && log == old(log) + [e] && View() == Apply(cfg, old(View()), e)
      ensures others == old(others)
    {
      ghost var s := View();
      var s' := Apply(cfg, View(), e);
      free, workers, threads, serial := s'.free, s'.heap, s'.custody, s'.serial;
      tickets, lost, dropped, closed := s'.tickets, s'.lost, s'.dropped, s'.closed;
      Commit(s, e);
    }

    // One step of another thread.
    method OtherStep(e: Event, mine: set<Ticket>)
      requires Valid() && mine <= threads.Keys && Enabled(cfg, View(), e)
      requires Actor(e).None? || Actor(e).value !in mine
      modifies this
      ensures Valid() && log == old(log) + [e] && others == old(others) && (old(closed) ==> closed)
      ensures forall t | t in mine :: Kept(old(View()), View(), t) && Own(log, t) == Own(old(log), t)
    {
      Holds();
      forall t | t in mine
        ensures Kept(View(), Apply(cfg, View(), e), t) && Own(log + [e], t) == Own(log, t)
      {
        OthersKeep(cfg, View(), e, t);
        OwnOther(log, e, t);
      }
      StaysClosed(cfg, View(), e);
      Perform(e);
    }

    /** Other threads act; the ones in `mine` do not. */
    method Interfere(mine: set<Ticket>)
      requires Valid() && mine <= threads.Keys
      modifies this
      ensures Valid() && Grew(old(log))
      ensures forall t | t in mine :: Kept(old(View()), View(), t) && Own(log, t) == Own(old(log), t)
      ensures old(closed) ==> closed
      ensures |old(others)| > 0 ==> |others| < |old(others)|
      ensures |old(others)| == 0 ==> View() == old(View()) && log == old(log) && others == []
    {
      Holds();
      ghost var s0, l0 := View(), log;
      while |others| > 0 && others[0].Some?
        invariant Valid() && Grew(l0)
        invariant forall t | t in mine :: Kept(s0, View(), t) && Own(log, t) == Own(l0, t)
        invariant s0.closed ==> closed
        invariant |others| <= |old(others)| && (|others| == |old(others)| ==> View() == s0 && log == l0)
        decreases |others|
      {
        var e := others[0].value;
        others := others[1..];
        if Enabled(cfg, View(), e) && (Actor(e).None? || Actor(e).value !in mine) {
          ghost var s := View();
          OtherStep(e, mine);
          forall t | t in mine
            ensures Kept(s0, View(), t)
          {
            KeptOn(s0, s, View(), t);
          }
        }
      }
      if |others| > 0 {
        others := others[1..];
      }
    }

    ghost predicate Grew(before: seq<Event>)
      reads this
    {
      before <= log
    }

    lemma NotDrawn(t: Ticket)
      requires Valid() && t >= tickets
      ensures Own(log, t) == []
    {
      InitInv(cfg, placed, init);
      NoStepsYet(cfg, placed, init, log, t);
    }

    lemma HeadKnown()
      requires Valid() && |free| > 0
      ensures free[0] in workers
    {
      Holds();
    }

    // `queue.get`: the head of the queue, under a new ticket.
    method Get(kind: Kind) returns (w: Wid, t: Ticket)
      requires Valid() && |free| > 0
      modifies this
      ensures Valid() && log == old(log) + [Event.Lease(t, kind)] && t == old(tickets)
      ensures w == old(free)[0] && t in threads && threads[t] == Holding(kind, w, Leased, map[])
    {
      HeadKnown();
      ghost var s := View();
      w, t := free[0], tickets;
      free := free[1..];
      tickets := t + 1;
      workers := workers[w := workers[w].(leases := workers[w].leases + 1)];
      threads := threads[t := Holding(kind, w, Leased, map[])];
      Commit(s, Event.Lease(t, kind));
    }

    /** Take the worker at the head of the queue under a new ticket, or give up
        waiting for one. */
    method Lease(kind: Kind) returns (r: Option<Wid>, t: Ticket)
      requires Valid()
      modifies this
      ensures Valid() && Grew(old(log))
      ensures r.None? ==> free == []
      ensures r.Some? ==>
                && Own(log, t) == [Event.Lease(t, kind)]
                && t in threads && threads[t] == Holding(kind, r.value, Leased, map[])
    {
      Interfere({});
      r, t := None, tickets;
      if |free| > 0 {
        NotDrawn(tickets);
        OwnNext(log, Event.Lease(tickets, kind), tickets);
        var w;
        w, t := Get(kind);
        r := Some(w);
      }
    }

    // Count the use, and pass the worker of `t` on.
    method GiveUp(t: Ticket, retire: bool, aged: bool, clean: bool)
      requires t in threads && threads[t].Holding? && threads[t].w in workers
      requires clean == (threads[t].kind.Session? || cfg.wipePerRun)
      modifies this`workers, this`threads, this`free
      ensures View() == Released(cfg, old(View()), t, retire, aged)
    {
      var w := threads[t].w;
      workers := workers[w := workers[w].(uses := workers[w].uses + 1)];
      if retire || workers[w].uses >= cfg.maxUses || aged {
        workers := workers[w := workers[w].(retires := workers[w].retires + 1)];
        threads := threads[t := Deleting(w)];
      } else if clean {
        threads := threads[t := Wiping(w, false)];
      } else {
        threads := threads - {t};
        free := free + [w];
      }
    }

    /** Return the worker of `t` to the queue, to a wipe thread, or to a
        replacement thread. `clean` overrides `fresh_workdir_per_run`. */
    method Release(t: Ticket, retire: bool, aged: bool, clean: Option<bool>)
      requires Valid() && Enabled(cfg, View(), Event.Release(t, retire, aged))
      requires clean == if threads[t].kind.Session? then Some(true) else None
      modifies this
      ensures Valid() && log == old(log) + [Event.Release(t, retire, aged)]
      ensures View() == Released(cfg, old(View()), t, retire, aged)
      ensures var c := old(threads)[t];
              var spent := retire || aged || old(workers)[c.w].uses + 1 >= cfg.maxUses;
              && c.w in workers && workers[c.w].files == old(workers)[c.w].files
              && (!spent && !cfg.wipePerRun && !c.kind.Session? ==> free == old(free) + [c.w] && t !in threads)
              && (!spent && (cfg.wipePerRun || c.kind.Session?) ==> t in threads && threads[t] == Wiping(c.w, false))
              && (spent ==> t in threads && threads[t] == Deleting(c.w))
    {
      ghost var s := View();
      ReleaseGoes(cfg, s, t, retire, aged);
      GiveUp(t, retire, aged, if clean.None? then cfg.wipePerRun else clean.value);
      Commit(s, Event.Release(t, retire, aged));
    }

    // The thread of `t` ends because the pool has closed.
    method Abandon(t: Ticket, ghost e: Event)
      requires Valid() && closed && t in threads && (e == WipeCheck(t) || e == SpawnCheck(t)) && Enabled(cfg, View(), e)
      modifies this
      ensures Valid() && log == old(log) + [e] && threads == old(threads) - {t} && closed
    {
      ghost var s := View();
      threads := threads - {t};
      dropped := dropped + 1;
      Commit(s, e);
    }

    // The worker of `t`, found dirty by its wipe thread, goes to be replaced.
    method RetireDirty(t: Ticket)
      requires Valid() && t in threads && threads[t].Wiping? && threads[t].checked && threads[t].w in workers
      modifies this
      ensures Valid() && log == old(log) + [WipeFail(t, old(workers)[old(threads)[t].w].files)]
      ensures threads == old(threads)[t := Deleting(old(threads)[t].w)]
    {
      ghost var s := View();
      var w := threads[t].w;
      ghost var e := WipeFail(t, workers[w].files);
      workers := workers[w := workers[w].(retires := workers[w].retires + 1)];
      threads := threads[t := Deleting(w)];
      Commit(s, e);
    }

    // The wiped worker of `t` goes back to the queue.
    method PutWiped(t: Ticket, left: set<Str>)
      requires Valid() && t in threads && threads[t].Wiping? && threads[t].checked && threads[t].w in workers
      modifies this
      ensures Valid() && log == old(log) + [WipeOk(t, left)]
      ensures threads == old(threads) - {t} && free == old(free) + [old(threads)[t].w]
    {
      ghost var s := View();
      var w := threads[t].w;
      var kept := Keep(workers[w].files, left);
      workers := workers[w := workers[w].(files := kept, residue := kept)];
      threads := threads - {t};
      free := free + [w];
      Commit(s, WipeOk(t, left));
    }

    // The wipe itself, and what follows it; `left` is None when it raises.
    method WipeNow(t: Ticket, left: Option<set<Str>>) returns (r: Wiped)
      requires Valid() && t in threads && threads[t].Wiping? && threads[t].checked
      modifies this
      ensures Valid() && Grew(old(log)) && !r.GivenUp? && (r.Returned? <==> left.Some?)
      ensures Own(log, t) == Own(old(log), t)
                             + [if left.Some? then WipeOk(t, left.value) else WipeFail(t, map[])]
      ensures if left.Some? then t !in threads && free == old(free) + [old(threads)[t].w]
              else threads == old(threads)[t := Deleting(old(threads)[t].w)]
    {
      WorkerKnown(t);
      if left.None? {
        OwnNext(log, WipeFail(t, workers[threads[t].w].files), t);
        RetireDirty(t);
        r := Dirty;
      } else {
        OwnNext(log, WipeOk(t, left.value), t);
        PutWiped(t, left.value);
        r := Returned;
      }
    }

    /** The wipe thread: give up if the pool has closed, wipe, and either return
        the worker to the queue or retire it. */
    method CleanAndReturn(t: Ticket, left: Option<set<Str>>) returns (r: Wiped)
      requires Valid() && t in threads && threads[t].Wiping? && !threads[t].checked
      modifies this
      ensures Valid() && Grew(old(log))
      ensures var own, w := Own(old(log), t) + [WipeCheck(t)], old(threads)[t].w;
              match r
              case Returned =>
                && left.Some? && Own(log, t) == own + [WipeOk(t, left.value)] && t !in threads
                && |free| > 0 && free[|free| - 1] == w
              case Dirty =>
                left.None? && Own(log, t) == own + [WipeFail(t, map[])] && t in threads && threads[t] == Deleting(w)
              case GivenUp => closed && Own(log, t) == own && t !in threads
    {
      Interfere({t});
      OwnNext(log, WipeCheck(t), t);
      if closed {
        Abandon(t, WipeCheck(t));
        r := GivenUp;
      } else {
        Perform(WipeCheck(t));
        Interfere({t});
        r := WipeNow(t, left);
      }
    }

    // `_delete` returned, or raised and took the replacement thread with it.
    method DeleteOld(t: Ticket, deletes: bool)
      requires Valid() && t in threads && threads[t].Deleting?
      modifies this
      ensures Valid() && log == old(log) + [if deletes then DeleteOk(t) else DeleteRaise(t)]
      ensures threads == if deletes then old(threads)[t := Waiting(0, 0)] else old(threads) - {t}
    {
      ghost var s := View();
      if deletes {
        threads := threads[t := Waiting(0, 0)];
        Commit(s, DeleteOk(t));
      } else {
        threads := threads - {t};
        lost := lost + 1;
        Commit(s, DeleteRaise(t));
      }
    }

    // Draw the next serial number for a pod.
    method NameNext(t: Ticket) returns (id: Wid)
      requires Valid() && !closed && t in threads && threads[t].Waiting?
      modifies this
      ensures Valid() && log == old(log) + [SpawnCheck(t)]
      ensures threads == old(threads)[t := Spawning(old(threads)[t].attempt, old(threads)[t].slept, id)]
    {
      ghost var s := View();
      serial := serial + 1;
      id := serial;
      threads := threads[t := Spawning(threads[t].attempt, threads[t].slept, id)];
      Commit(s, SpawnCheck(t));
    }

    // The new worker joins the queue.
    method PutSpawned(t: Ticket) returns (id: Wid)
      requires Valid() && t in threads && threads[t].Spawning?
      modifies this
      ensures Valid() && log == old(log) + [SpawnOk(t)] && id == old(threads)[t].id
      ensures threads == old(threads) - {t} && free == old(free) + [id]
      ensures id in workers && workers[id] == FRESH_WORKER
    {
      ghost var s := View();
      id := threads[t].id;
      workers := workers[id := FRESH_WORKER];
      threads := threads - {t};
      free := free + [id];
      Commit(s, SpawnOk(t));
    }

    // The attempt failed: sleep and count it, or let the slot go.
    method SpawnFailed(t: Ticket)
      requires Valid() && t in threads && threads[t].Spawning?
      modifies this
      ensures Valid() && log == old(log) + [SpawnFail(t)]
      ensures var c := old(threads)[t];
              threads == if c.attempt >= 2 then old(threads) - {t}
                         else old(threads)[t := Waiting(c.attempt + 1, c.slept + Backoff(c.attempt))]
    {
      ghost var s := View();
      var c := threads[t];
      if c.attempt >= 2 {
        threads := threads - {t};
        lost := lost + 1;
      } else {
        threads := threads[t := Waiting(c.attempt + 1, c.slept + Backoff(c.attempt))];
      }
      Commit(s, SpawnFail(t));
    }

    // The pod for `t` came up, or did not.
    method Settle(t: Ticket, places: bool) returns (r: Option<Replaced>)
      requires Valid() && t in threads && threads[t].Spawning?
      modifies this
      ensures Valid() && Grew(old(log)) && (r.Some? ==> !r.value.PoolClosed?)
      ensures var c, own := old(threads)[t], Own(old(log), t) + [if places then SpawnOk(t) else SpawnFail(t)];
              && Own(log, t) == own
              && (places <==> r.Some? && r.value.Back?)
              && (r.Some? <==> t !in threads)
              && (r.None? ==>
                    c.attempt < 2 && t in threads
                    && threads[t] == Waiting(c.attempt + 1, c.slept + Backoff(c.attempt)))
              && (r.Some? && r.value.SlotLost? ==> c.attempt >= 2)
              && (r.Some? && r.value.Back? ==>
                    && |free| > 0 && free[|free| - 1] == r.value.id
                    && r.value.id in workers && workers[r.value.id] == FRESH_WORKER)
    {
      var c := threads[t];
      OwnNext(log, if places then SpawnOk(t) else SpawnFail(t), t);
      if places {
        var id := PutSpawned(t);
        return Some(Back(id));
      }
      SpawnFailed(t);
      r := if c.attempt >= 2 then Some(SlotLost) else None;
    }

    /** One attempt of a replacement: give up if the pool has closed, else spawn;
        None means that it is to try again. */
    method Attempt(t: Ticket, places: bool) returns (r: Option<Replaced>)
      requires Valid() && t in threads && threads[t].Waiting?
      modifies this
      ensures Valid() && Grew(old(log)) && (r.Some? <==> t !in threads)
      ensures var c := old(threads)[t];
              var own := Own(old(log), t) + [SpawnCheck(t)] + [if places then SpawnOk(t) else SpawnFail(t)];
              match r
              case Some(PoolClosed) => closed && Own(log, t) == Own(old(log), t) + [SpawnCheck(t)]
              case Some(Back(id)) =>
                && places && Own(log, t) == own
                && |free| > 0 && free[|free| - 1] == id && id in workers && workers[id] == FRESH_WORKER
              case Some(SlotLost) => !places && c.attempt >= 2 && Own(log, t) == own
              case None =>
                && !places && c.attempt < 2 && Own(log, t) == own
                && t in threads && threads[t] == Waiting(c.attempt + 1, c.slept + Backoff(c.attempt))
    {
      Interfere({t});
      OwnNext(log, SpawnCheck(t), t);
      if closed {
        Abandon(t, SpawnCheck(t));
        return Some(PoolClosed);
      }
      var id := NameNext(t);
      ghost var l := log;
      Interfere({t});
      l := log;
      r := Settle(t, places);
    }

    // The attempts of a replacement thread, after the old pod is deleted.
    method PlaceAgain(t: Ticket, spawns: seq<bool>) returns (r: Replaced, slept: nat)
      requires Valid() && t in threads && threads[t] == Waiting(0, 0) && |spawns| == 3
      modifies this
      ensures Valid() && Grew(old(log)) && t !in threads && slept <= 6
      ensures var own := Own(old(log), t);
              match r
              case Back(id) =>
                && |free| > 0 && free[|free| - 1] == id && id in workers && workers[id] == FRESH_WORKER
                && exists k: nat ::
                     && k < 3 && FailsFirst(spawns, k) && spawns[k] && slept == Slept(k)
                     && Own(log, t) == own + Tries(t, k) + [SpawnCheck(t)] + [SpawnOk(t)]
              case SlotLost => FailsFirst(spawns, 3) && Own(log, t) == own + Tries(t, 3)
              case PoolClosed =>
                closed && exists k: nat ::
                            && k < 3 && FailsFirst(spawns, k) && slept == Slept(k)
                            && Own(log, t) == own + Tries(t, k) + [SpawnCheck(t)]
    {
      slept := 0;
      ghost var own := Own(log, t);
      var attempt := 0;
      while true
        invariant Valid() && Grew(old(log)) && attempt <= 2
        invariant t in threads && threads[t] == Waiting(attempt, slept) && slept == Slept(attempt)
        invariant FailsFirst(spawns, attempt)
        invariant Own(log, t) == own + Tries(t, attempt)
        decreases 3 - attempt
      {
        AttemptSleep(attempt);
        var a := Attempt(t, spawns[attempt]);
        TriesNext(t, attempt, own);
        if a.Some? {
          r := a.value;
          return;
        }
        slept := slept + Backoff(attempt);
        attempt := attempt + 1;
      }
    }

    /** The replacement thread: delete the old pod, then try three times, backing
        off, to place a new one. */
    method Replace(t: Ticket, deletes: bool, spawns: seq<bool>) returns (r: Replaced, slept: nat)
      requires Valid() && t in threads && threads[t].Deleting? && |spawns| == 3
      modifies this
      ensures Valid() && Grew(old(log)) && t !in threads && slept <= 6
      ensures var own := Own(old(log), t);
              match r
              case Back(id) =>
                && deletes && |free| > 0 && free[|free| - 1] == id && id in workers && workers[id] == FRESH_WORKER
                && exists k: nat ::
                     && k < 3 && FailsFirst(spawns, k) && spawns[k] && slept == Slept(k)
                     && Own(log, t) == own + [DeleteOk(t)] + Tries(t, k) + [SpawnCheck(t)] + [SpawnOk(t)]
              case SlotLost =>
                if deletes then FailsFirst(spawns, 3) && Own(log, t) == own + [DeleteOk(t)] + Tries(t, 3)
                else Own(log, t) == own + [DeleteRaise(t)]
              case PoolClosed =>
                deletes && closed && exists k: nat ::
                                       && k < 3 && FailsFirst(spawns, k) && slept == Slept(k)
                                       && Own(log, t) == own + [DeleteOk(t)] + Tries(t, k) + [SpawnCheck(t)]
    {
      Interfere({t});
      OwnNext(log, if deletes then DeleteOk(t) else DeleteRaise(t), t);
      DeleteOld(t, deletes);
      if deletes {
        r, slept := PlaceAgain(t, spawns);
      } else {
        r, slept := SlotLost, 0;
      }
    }

    lemma AttemptSleep(attempt: nat)
      requires attempt <= 2
      ensures Slept(attempt) <= 6
    {
      assert Slept(0) == 0 && Slept(1) == 2 && Slept(2) == 6;
    }

    lemma WorkerKnown(t: Ticket)
      requires Valid() && t in threads && HasWorker(threads[t])
      ensures threads[t].w in workers
      ensures threads[t].Holding? ==> HoldingOk(cfg, t, threads[t], workers[threads[t].w])
    {
      Holds();
      assert CustodyOk(cfg, t, threads[t], workers);
    }

    // If every wipe so far removed all it found, nothing is left on any worker.
    lemma Emptied(w: Wid)
      requires Valid() && w in workers
      ensures NothingLeft(log) ==> workers[w].residue == map[]
    {
      if NothingLeft(log) {
        RunNoResidue(cfg, init, log);
      }
    }

    // Something raised: the worker of `t` must be retired. What a failed upload
    // left is `partial`; anything else leaves the files as they are.
    method Doom(t: Ticket, partial: Option<Files>)
      requires Valid() && t in threads && threads[t].Holding? && !threads[t].stage.Doomed?
      modifies this
      ensures Valid() && Grew(old(log)) && t in threads && threads[t] == old(threads)[t].(stage := Doomed)
      ensures Own(log, t) == Own(old(log), t) + [Fail(t, map[])] && closed == old(closed)
      ensures var w := threads[t].w;
              w in old(workers) && w in workers && (partial.None? ==> workers[w] == old(workers)[w])
    {
      WorkerKnown(t);
      var files := workers[threads[t].w].files;
      var o := UploadOrigin(threads[t], t);
      var after := if partial.Some? && WrittenBy(files, partial.value, o) then partial.value else files;
      OwnNext(log, Fail(t, after), t);
      Perform(Fail(t, after));
    }

    /** The worker of `t` holds what it held before and, on top, `input`. */
    ghost predicate Overlaid(t: Ticket, input: map<Str, Bytes>,
                             threads0: map<Ticket, Custodian>, workers0: map<Wid, Worker>)
      requires t in threads0 && threads0[t].Holding?
      reads this
    {
      var c := threads0[t];
      && c.w in workers0 && c.w in workers && workers[c.w].live.None?
      && workers[c.w].files == workers0[c.w].files + Tag(input, UploadOrigin(c, t))
      && workers[c.w].residue == workers0[c.w].residue
    }

    // The ticket holds its worker before a command: leased, or between the calls
    // of a session.
    predicate BeforeCall(t: Ticket)
      reads this
    {
      && t in threads && threads[t].Holding?
      && threads[t].stage == if threads[t].kind.Session? then Ready else Leased
    }

    // The same holder, at another stage.
    ghost predicate At(t: Ticket, stage: Stage, before: Custodian)
      reads this
    {
      && before.Holding? && t in threads && threads[t].Holding?
      && threads[t].w == before.w && threads[t].kind == before.kind && threads[t].stage == stage
    }

    // Stage the inputs of a command; an empty map needs no upload.
    method Stage(t: Ticket, input: map<Str, Bytes>, sending: Sending) returns (sent: bool)
      requires Valid() && BeforeCall(t)
      modifies this
      ensures Valid() && Grew(old(log))
      ensures sent <==> input == map[] || sending.Sent?
      ensures var files := Landed(input, sending);
              if sent
              then At(t, Ready, old(threads)[t]) && threads[t].inputs == files
                   && Own(log, t) == Own(old(log), t) + [Event.Upload(t, files)]
                   && Overlaid(t, files, old(threads), old(workers))
              else At(t, Doomed, old(threads)[t]) && Own(log, t) == Own(old(log), t) + [Fail(t, map[])]
    {
      WorkerKnown(t);
      Interfere({t});
      WorkerKnown(t);
      sent := input == map[] || sending.Sent?;
      if sent {
        OwnNext(log, Event.Upload(t, Landed(input, sending)), t);
        Perform(Event.Upload(t, Landed(input, sending)));
      } else {
        Doom(t, Some(sending.partial));
      }
    }

    /** Run the staged command and wait for its channel to close, for the
        deadline, or for an error; `files` is what it started with and `left` what
        the last wipe had failed to remove. */
    method Command(t: Ticket, exec: Exec) returns (ghost files: Files, ghost left: Files)
      requires Valid() && t in threads && threads[t].Holding? && threads[t].stage.Ready?
      modifies this
      ensures Valid() && Grew(old(log))
      ensures At(t, if !exec.Exits? then Doomed else if old(threads)[t].kind.Session? then Ready else Exited,
                 old(threads)[t])
      ensures Own(log, t) == Own(old(log), t) + [Start(t)] + [if exec.Exits? then Exit(t) else Fail(t, map[])]
      ensures old(threads)[t].w in old(workers)
      ensures files == old(workers)[old(threads)[t].w].files && left == old(workers)[old(threads)[t].w].residue
      ensures cfg.wipePerRun && !threads[t].kind.Session? ==> files == left + Tag(old(threads)[t].inputs, ByRun(t))
      ensures NothingLeft(old(log)) ==> left == map[]
    {
      WorkerKnown(t);
      Emptied(threads[t].w);
      files, left := workers[threads[t].w].files, workers[threads[t].w].residue;
      OwnNext(log, Start(t), t);
      Perform(Start(t));
      Interfere({t});
      WorkerKnown(t);
      if exec.Exits? {
        OwnNext(log, Exit(t), t);
        Perform(Exit(t));
      } else {
        Doom(t, None);
      }
    }

    // The checks, the upload and the connection that come before a command.
    method Prepare(t: Ticket, input: map<Str, Bytes>, plan: Plan) returns (ready: bool)
      requires Valid() && BeforeCall(t)
      modifies this
      ensures Valid() && Grew(old(log))
      ensures ready <==> Staged(uploadCap, plan, input)
      ensures var own, files := Own(old(log), t), Landed(input, plan.sending);
              if ready
              then At(t, Ready, old(threads)[t]) && threads[t].inputs == files
                   && Own(log, t) == own + [Event.Upload(t, files)]
                   && Overlaid(t, files, old(threads), old(workers))
              else At(t, Doomed, old(threads)[t]) && Own(log, t) == own + CallSteps(uploadCap, t, input, plan)
    {
      ready := false;
      var total := Workspace.SizeOf(input);
      if (input != map[] && total > uploadCap) || !plan.envOk {
        Doom(t, None);
        return;
      }
      var sent := Stage(t, input, plan.sending);
      if sent {
        Interfere({t});
        ready := plan.connects;
        if !ready {
          Doom(t, None);
        }
      }
    }

    // The collector raised after the command had exited.
    method CollectRaises(t: Ticket)
      requires Valid() && t in threads && threads[t].Holding? && !threads[t].stage.Doomed?
      modifies this
      ensures Valid() && Grew(old(log)) && t in threads && threads[t] == old(threads)[t].(stage := Doomed)
      ensures Own(log, t) == Own(old(log), t) + [Fail(t, map[])]
    {
      Interfere({t});
      Doom(t, None);
    }

    // Run the staged command, and collect when it has exited.
    method RunStaged(t: Ticket, plan: Plan) returns (e: Executed, ghost files: Files, ghost left: Files)
      requires Valid() && t in threads && threads[t].Holding? && threads[t].stage.Ready?
      modifies this
      ensures Valid() && Grew(old(log)) && Own(log, t) == Own(old(log), t) + RunSteps(t, plan)
      ensures At(t, if !e.Done? then Doomed else if old(threads)[t].kind.Session? then Ready else Exited,
                 old(threads)[t])
      ensures (e.Done? <==> plan.exec.Exits? && plan.collects) && (e.Timeout? <==> plan.exec.TimesOut?)
      ensures old(threads)[t].w in old(workers)
      ensures files == old(workers)[old(threads)[t].w].files && left == old(workers)[old(threads)[t].w].residue
      ensures cfg.wipePerRun && !threads[t].kind.Session? ==> files == left + Tag(old(threads)[t].inputs, ByRun(t))
      ensures NothingLeft(log) ==> left == map[]
    {
      files, left := Command(t, plan.exec);
      NothingLeftBefore(old(log), log);
      e := if !plan.exec.Exits? then (if plan.exec.TimesOut? then Timeout else Broken)
           else if plan.collects then Done else Broken;
      if plan.exec.Exits? && !plan.collects {
        CollectRaises(t);
        NothingLeftBefore(old(log), log);
      }
    }

    /** `_exec_on_worker`: check, stage, run and collect on a held worker. When
        the command starts, `began` is the workspace it finds and `left` what the
        last wipe had failed to remove. */
    method ExecOnWorker(t: Ticket, input: map<Str, Bytes>, plan: Plan)
      returns (e: Executed, ghost began: Option<Files>, ghost left: Files)
      requires Valid() && BeforeCall(t)
      modifies this
      ensures Valid() && Grew(old(log))
      ensures At(t, if !e.Done? then Doomed else if old(threads)[t].kind.Session? then Ready else Exited,
                 old(threads)[t])
      ensures Own(log, t) == Own(old(log), t) + CallSteps(uploadCap, t, input, plan)
      ensures began.Some? <==> Staged(uploadCap, plan, input)
      ensures e.Done? <==> Completes(uploadCap, plan, input)
      ensures e.Timeout? <==> Overruns(uploadCap, plan, input)
      ensures began.Some? && cfg.wipePerRun && !threads[t].kind.Session? ==>
                began.value == left + Tag(Landed(input, plan.sending), ByRun(t))
      ensures NothingLeft(log) ==> left == map[]
      ensures var c := old(threads)[t];
              began.Some? ==>
                && c.w in old(workers)
                && began.value == old(workers)[c.w].files + Tag(Landed(input, plan.sending), OriginOf(c.kind, t))
    {
      e, began, left := Broken, None, map[];
      var ready := Prepare(t, input, plan);
      if ready {
        ghost var files;
        e, files, left := RunStaged(t, plan);
        began := Some(files);
      }
    }

    /** A call that got a worker ends as the plan says. */
    ghost predicate Answers(r: Outcome, input: map<Str, Bytes>, plan: Plan) {
      && (r.Finished? <==> Completes(uploadCap, plan, input))
      && (r.TimedOut? <==> Overruns(uploadCap, plan, input))
    }

    lemma LandsAsSent(left: Files, input: map<Str, Bytes>, sending: Sending, t: Ticket)
      ensures var files := left + Tag(Landed(input, sending), ByRun(t));
              left == map[] && Disks.Normal(input) ==>
                files.Keys == input.Keys && forall p | p in input :: files[p].data == input[p]
    {
      TagHolds(input, ByRun(t));
    }

    lemma FinishedSteps(t: Ticket, input: map<Str, Bytes>, plan: Plan)
      ensures Completes(uploadCap, plan, input) ==>
                CallSteps(uploadCap, t, input, plan)
                == [Event.Upload(t, Landed(input, plan.sending))] + ([Start(t)] + [Exit(t)])
    {
      assert [Exit(t)] + [] == [Exit(t)];
    }

    // `_dispatch` once it has its worker.
    method RunAndRelease(t: Ticket, w: Wid, input: map<Str, Bytes>, plan: Plan, aged: bool)
      returns (r: Outcome, ghost began: Option<Files>, ghost left: Files)
      requires Valid() && t in threads && threads[t] == Holding(Run, w, Leased, map[])
      modifies this
      ensures Valid() && Grew(old(log)) && (r == Finished(w) || r == TimedOut(w) || r == Failed(w))
      ensures Own(log, t) == Own(old(log), t) + CallSteps(uploadCap, t, input, plan)
                             + [Event.Release(t, !r.Finished?, aged)]
      ensures !r.Finished? ==> t in threads && threads[t] == Deleting(w)
      ensures Answers(r, input, plan) && (began.Some? <==> Staged(uploadCap, plan, input))
      ensures began.Some? && cfg.wipePerRun ==> began.value == left + Tag(Landed(input, plan.sending), ByRun(t))
      ensures NothingLeft(log) ==> left == map[]
    {
      var e;
      e, began, left := ExecOnWorker(t, input, plan);
      WorkerKnown(t);
      ghost var l := log;
      OwnNext(l, Event.Release(t, !e.Done?, aged), t);
      Release(t, !e.Done?, aged, None);
      NothingLeftBefore(l, log);
      r := match e
           case Done => Finished(w)
           case Timeout => TimedOut(w)
           case Broken => Failed(w);
    }

    /** `_dispatch`: lease a worker, run one command on it, and release or retire
        it. The own steps of the call are the ones its plan names, and what the
        command finds is its inputs over what the last wipe left. */
    method Dispatch(input: map<Str, Bytes>, plan: Plan, aged: bool)
      returns (r: Outcome, t: Ticket, ghost began: Option<Files>, ghost left: Files)
      requires Valid()
      modifies this
      ensures Valid() && Grew(old(log))
      ensures r.Refused? <==> old(closed)
      ensures r.Refused? ==> log == old(log)
      ensures r.NoWorker? ==> free == []
      ensures if r.Refused? || r.NoWorker? then began.None?
              else && Own(log, t) == [Event.Lease(t, Run)] + CallSteps(uploadCap, t, input, plan)
                                     + [Event.Release(t, !r.Finished?, aged)]
                   && (!r.Finished? ==> t in threads && threads[t] == Deleting(r.w))
                   && Answers(r, input, plan) && (began.Some? <==> Staged(uploadCap, plan, input))
      ensures !r.Refused? && !r.NoWorker? ==>
                var starts := && plan.envOk && plan.connects
                              && (input == map[] || (Workspace.DirBytes(input) <= uploadCap && plan.sending.Sent?));
                && (r.Finished? <==> starts && plan.exec.Exits? && plan.collects)
                && (r.TimedOut? <==> starts && plan.exec.TimesOut?)
                && (began.Some? <==> starts)
      ensures r.Finished? ==>
                Own(log, t) == [Event.Lease(t, Run)]
                               + ([Event.Upload(t, Landed(input, plan.sending))] + ([Start(t)] + [Exit(t)]))
                               + [Event.Release(t, false, aged)]
      ensures began.Some? && cfg.wipePerRun ==> began.value == left + Tag(Landed(input, plan.sending), ByRun(t))
      ensures NothingLeft(log) ==> left == map[]
      ensures began.Some? && cfg.wipePerRun && NothingLeft(log) && Disks.Normal(input) ==>
                began.value.Keys == input.Keys && forall p | p in input :: began.value[p].data == input[p]
    {
      r, t, began, left := Refused, tickets, None, map[];
      if closed {
        return;
      }
      var leased;
      leased, t := Lease(Run);
      if leased.None? {
        r := NoWorker;
        return;
      }
      r, began, left := RunAndRelease(t, leased.value, input, plan, aged);
      LandsAsSent(left, input, plan.sending, t);
      FinishedSteps(t, input, plan);
    }

    /** Mark the pool closed, then drain the queue while others may still put
        workers into it. */
    method Close()
      requires Valid()
      modifies this
      ensures Valid() && Grew(old(log)) && closed && free == []
    {
      Perform(Event.Close);
      while |free| > 0
        invariant Valid() && Grew(old(log)) && closed
        decreases |others|, |free|
      {
        Discard();
        Interfere({});
      }
    }

    // `close` drops a parked worker.
    method Discard()
      requires Valid() && closed && |free| > 0
      modifies this
      ensures Valid() && log == old(log) + [Drain] && closed && free == old(free)[1..] && others == old(others)
    {
      ghost var s := View();
      free := free[1..];
      dropped := dropped + 1;
      Commit(s, Drain);
    }
  }
}

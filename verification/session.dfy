/** A session: one worker held for a sequence of calls that share its workspace. */
module Sessions {
  import opened Common
  import opened Protocol
  import opened Invariant
  import opened Guarantees
  import opened Pool
  import Disks
  import Workspace

  datatype Entered = Refused | NoWorker | Began(left: set<Str>) | PrepFailed
  datatype Called = Unusable | Ran | CallTimedOut | CallBroke

  class SandboxSession {
    const pool: SandboxPool
    var restore: Option<map<Str, Bytes>>
    var worker: Option<Wid>
    var dead: bool
    var t: Ticket   // the lease behind `worker`

    /** The pool is in order, and a worker this session has is one it holds,
        ready for a call. */
    ghost predicate Valid()
      reads this, pool
    {
      && pool.Valid()
      && (worker.Some? ==>
            && t in pool.threads && pool.threads[t].Holding?
            && pool.threads[t].kind.Session? && pool.threads[t].stage.Ready?
            && pool.threads[t].w == worker.value)
    }

    constructor (pool: SandboxPool, restore: Option<map<Str, Bytes>>)
      requires pool.Valid()
      ensures Valid() && this.pool == pool && this.restore == restore && worker.None? && !dead
    {
      this.pool := pool;
      this.restore := restore;
      this.worker := None;
      this.dead := false;
      this.t := 0;
    }

    /** `_retire_now`: give the worker up for replacement and end the session. */
    method RetireNow()
      requires pool.Valid()
      requires worker.Some? ==>
                 && t in pool.threads && pool.threads[t].Holding? && pool.threads[t].kind.Session?
                 && pool.threads[t].w == worker.value
      modifies this, pool
      ensures Valid() && worker.None? && dead && restore == old(restore) && t == old(t)
      ensures pool.closed == old(pool.closed)
      ensures if old(worker).None? then pool.log == old(pool.log)
              else pool.log == old(pool.log) + [Event.RetireNow(t)]
                   && t in pool.threads && pool.threads[t] == Deleting(old(worker).value)
    {
      var w := worker;
      worker, dead := None, true;
      if w.Some? {
        pool.WorkerKnown(t);
        pool.Perform(Event.RetireNow(t));
      }
    }

    // The files to seed the workspace with.
    function ToRestore(): map<Str, Bytes>
      reads this
    {
      if restore.Some? then restore.value else map[]
    }

    // The worker of this session is held at `stage`.
    ghost predicate HeldAs(stage: Stage)
      reads this, pool
    {
      && worker.Some? && t in pool.threads && pool.threads[t].Holding?
      && pool.threads[t].kind.Session? && pool.threads[t].w == worker.value && pool.threads[t].stage == stage
    }

    /** The worker of this session holds `files` over what its last wipe left, and
        that is nothing but paths in `left`. */
    ghost predicate SeededWith(files: map<Str, Bytes>, left: set<Str>)
      reads this, pool
    {
      && worker.Some? && worker.value in pool.workers
      && var r := pool.workers[worker.value];
         r.files == r.residue + Protocol.Tag(files, Origin.Seed(t)) && r.residue.Keys <= left
    }

    // A wipe that left nothing, and paths that land where they say.
    lemma ExactRestore(files: map<Str, Bytes>, sending: Sending, left: set<Str>)
      requires SeededWith(Landed(files, sending), left)
      ensures left == {} && Disks.Normal(files) ==>
                && pool.workers[worker.value].files.Keys == files.Keys
                && forall p | p in files :: pool.workers[worker.value].files[p].data == files[p]
    {
      TagHolds(files, Origin.Seed(t));
    }

    // Wipe the leased worker.
    method Clean(left: set<Str>)
      requires pool.Valid() && HeldAs(Leased)
      modifies pool
      ensures pool.Valid() && pool.Grew(old(pool.log)) && HeldAs(Stage.Wiped)
      ensures worker.value in pool.workers && pool.workers[worker.value].residue.Keys <= left
      ensures Own(pool.log, t) == Own(old(pool.log), t) + [SessionClean(t, left)]
    {
      pool.WorkerKnown(t);
      OwnNext(pool.log, SessionClean(t, left), t);
      pool.Perform(SessionClean(t, left));
    }

    // Restore the snapshot on the wiped worker, if there is one.
    method Restore(sending: Sending) returns (ok: bool)
      requires pool.Valid() && HeldAs(Stage.Wiped)
      modifies pool
      ensures pool.Valid() && pool.Grew(old(pool.log)) && (ok <==> ToRestore() == map[] || sending.Sent?)
      ensures HeldAs(if ok then Ready else Doomed)
      ensures ok ==>
                && worker.value in old(pool.workers)
                && SeededWith(Landed(ToRestore(), sending), old(pool.workers)[worker.value].residue.Keys)
                && Own(pool.log, t) == Own(old(pool.log), t) + [Event.Upload(t, Landed(ToRestore(), sending))]
    {
      var files := Landed(ToRestore(), sending);
      pool.WorkerKnown(t);
      pool.Interfere({t});
      pool.WorkerKnown(t);
      ok := ToRestore() == map[] || sending.Sent?;
      if ok {
        OwnNext(pool.log, Event.Upload(t, files), t);
        pool.Perform(Event.Upload(t, files));
      } else {
        pool.Doom(t, Some(sending.partial));
      }
    }

    // Wipe and restore.
    method Seed(clean: Option<set<Str>>, sending: Sending) returns (ok: bool)
      requires pool.Valid() && HeldAs(Leased)
      modifies pool
      ensures pool.Valid() && pool.Grew(old(pool.log))
      ensures ok <==> clean.Some? && (ToRestore() == map[] || sending.Sent?)
      ensures HeldAs(if ok then Ready else Doomed)
      ensures ok ==>
                && SeededWith(Landed(ToRestore(), sending), clean.value)
                && Own(pool.log, t) == Own(old(pool.log), t)
                                       + [SessionClean(t, clean.value), Event.Upload(t, Landed(ToRestore(), sending))]
    {
      ok := false;
      pool.Interfere({t});
      if clean.None? {
        pool.Doom(t, None);
        return;
      }
      Clean(clean.value);
      ok := Restore(sending);
    }

    // `__enter__` once it has its worker.
    method Begin(clean: Option<set<Str>>, sending: Sending) returns (r: Entered)
      requires pool.Valid() && HeldAs(Leased)
      modifies this, pool
      ensures Valid() && pool.Grew(old(pool.log)) && t == old(t)
      ensures r.Began? || r.PrepFailed?
      ensures dead == (old(dead) || r.PrepFailed?)
      ensures restore == if r.Began? then None else old(restore)
      ensures worker == if r.Began? then old(worker) else None
      ensures var files := Landed(old(ToRestore()), sending);
              if r.Began?
              then && clean == Some(r.left) && (old(ToRestore()) == map[] || sending.Sent?)
                   && SeededWith(files, r.left)
                   && Own(pool.log, t) == Own(old(pool.log), t) + [SessionClean(t, r.left), Event.Upload(t, files)]
              else && (clean.None? || (old(ToRestore()) != map[] && sending.SendFails?))
                   && t in pool.threads && pool.threads[t].Deleting?
      ensures r.Began? && r.left == {} && Disks.Normal(old(ToRestore())) ==>
                && worker.value in pool.workers
                && pool.workers[worker.value].files.Keys == old(ToRestore()).Keys
                && forall p | p in old(ToRestore()) :: pool.workers[worker.value].files[p].data == old(ToRestore())[p]
    {
      var ok := Seed(clean, sending);
      if !ok {
        RetireNow();
        return PrepFailed;
      }
      ExactRestore(ToRestore(), sending, clean.value);
      restore := None;
      r := Began(clean.value);
    }

    /** `__enter__`: lease a worker, wipe it, restore the snapshot. A session that
        began has exactly its restore map, over what the wipe could not remove. */
    method Enter(clean: Option<set<Str>>, sending: Sending) returns (r: Entered)
      requires Valid() && worker.None?
      modifies this, pool
      ensures Valid() && pool.Grew(old(pool.log))
      ensures dead == (old(dead) || r.PrepFailed?)
      ensures restore == if r.Began? then None else old(restore)
      ensures r.Began? <==> worker.Some?
      ensures r.Refused? <==> old(pool.closed)
      ensures var files := Landed(old(ToRestore()), sending);
              var ready := clean.Some? && (old(ToRestore()) == map[] || sending.Sent?);
              match r
              case Began(left) =>
                && ready && clean == Some(left) && SeededWith(files, left)
                && Own(pool.log, t) == [Event.Lease(t, Session), SessionClean(t, left), Event.Upload(t, files)]
              case PrepFailed => !ready && t in pool.threads && pool.threads[t].Deleting?
              case Refused => pool.log == old(pool.log)
              case NoWorker => pool.free == []
      ensures r.Began? && r.left == {} ==>
                var files := if old(restore).Some? then old(restore).value else map[];
                && worker.value in pool.workers
                && (Disks.Normal(files) ==>
                      && pool.workers[worker.value].files.Keys == files.Keys
                      && forall p | p in files :: pool.workers[worker.value].files[p].data == files[p])
    {
      if pool.closed {
        return Entered.Refused;
      }
      var w, ticket := pool.Lease(Kind.Session);
      if w.None? {
        return Entered.NoWorker;
      }
      worker, t := w, ticket;
      r := Begin(clean, sending);
    }

    /** `_call`: a call finds what the calls before it left, with its own inputs
        on top; one that does not finish ends the session. */
    method Call(input: map<Str, Bytes>, plan: Plan) returns (r: Called, ghost began: Option<Files>)
      requires Valid()
      modifies this, pool
      ensures Valid() && pool.Grew(old(pool.log)) && restore == old(restore) && t == old(t)
      ensures r.Unusable? <==> old(dead) || old(worker).None?
      ensures r.Unusable? ==>
                pool.log == old(pool.log) && worker == old(worker) && dead == old(dead) && began.None?
      ensures !r.Unusable? ==>
                && Own(pool.log, t) == Own(old(pool.log), t) + CallSteps(pool.uploadCap, t, input, plan)
                                       + (if r.Ran? then [] else [Event.RetireNow(t)])
                && (r.Ran? <==> Completes(pool.uploadCap, plan, input))
                && (r.CallTimedOut? <==> Overruns(pool.uploadCap, plan, input))
                && (began.Some? <==> Staged(pool.uploadCap, plan, input))
                && var starts := && plan.envOk && plan.connects
                                 && (input == map[]
                                     || (Workspace.DirBytes(input) <= pool.uploadCap && plan.sending.Sent?));
                   (r.Ran? <==> starts && plan.exec.Exits? && plan.collects)
                   && (r.CallTimedOut? <==> starts && plan.exec.TimesOut?)
      ensures r.Ran? ==> worker == old(worker) && dead == old(dead)
      ensures r.CallTimedOut? || r.CallBroke? ==>
                && worker.None? && dead && t in pool.threads && pool.threads[t] == Deleting(old(worker).value)
      ensures began.Some? ==>
                && old(worker).Some? && old(worker).value in old(pool.workers)
                && began.value == old(pool.workers)[old(worker).value].files
                                  + Protocol.Tag(Landed(input, plan.sending), BySession(t))
    {
      began := None;
      if dead || worker.None? {
        return Unusable, None;
      }
      var e;
      ghost var left;
      e, began, left := pool.ExecOnWorker(t, input, plan);
      ghost var l := pool.log;
      if !e.Done? {
        OwnNext(l, Event.RetireNow(t), t);
        RetireNow();
      }
      r := match e
           case Done => Ran
           case Timeout => CallTimedOut
           case Broken => CallBroke;
    }

    /** `_close`: hand a healthy worker back with a forced wipe; retire the worker
        of a session that had died. Closing twice does nothing. */
    method Exit(aged: bool)
      requires Valid()
      modifies this, pool
      ensures Valid() && worker.None? && dead == old(dead) && restore == old(restore) && t == old(t)
      ensures if old(worker).None? then pool.log == old(pool.log)
              else if dead then pool.log == old(pool.log) + [Event.RetireNow(t)]
              else pool.log == old(pool.log) + [Event.Release(t, false, aged)]
      ensures old(worker).Some? ==>
                && t in pool.threads
                && (|| pool.threads[t] == Wiping(old(worker).value, false)
                    || pool.threads[t] == Deleting(old(worker).value))
    {
      var w := worker;
      worker := None;
      if w.None? {
        return;
      }
      pool.WorkerKnown(t);
      if dead {
        pool.Perform(Event.RetireNow(t));
      } else {
        pool.Release(t, false, aged, Some(true));
      }
    }
  }
}

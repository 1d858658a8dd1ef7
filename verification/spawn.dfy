/** Placing one worker: names, the pre-create delete, the watch for a verdict, and
    the cleanup that keeps abandoned pods from surviving. */
module Spawn {
  import opened Common

  // ---- the watch ------------------------------------------------------------

  datatype Phase = Running | Failed | OtherPhase
  datatype Reason = ImagePullBackOff | InvalidImageName | ImageInspectError | RegistryUnavailable | OtherReason
  datatype Condition = Condition(scheduled: bool, isFalse: bool, unschedulable: bool)

  /** What a watch event shows of the pod. `waiting` has an entry per container:
      the reason it waits, if it waits. */
  datatype PodEvent = PodEvent(phase: Phase, waiting: seq<Option<Reason>>, conditions: seq<Condition>)

  datatype Verdict = Placed | Unschedulable | StartFailed | CannotPull(reason: Reason) | NoVerdict

  predicate Terminal(w: Option<Reason>) { w.Some? && !w.value.OtherReason? }

  predicate GivenUp(c: Condition) { c.scheduled && c.isFalse && c.unschedulable }

  predicate PullStuck(e: PodEvent) { exists w :: w in e.waiting && Terminal(w) }

  predicate SchedulerGaveUp(e: PodEvent) { exists c :: c in e.conditions && GivenUp(c) }

  /** The event settles where the worker stands. */
  predicate Decisive(e: PodEvent) {
    e.phase.Running? || e.phase.Failed? || PullStuck(e) || SchedulerGaveUp(e)
  }

  /** `r` is why the first container that cannot pull its image waits. */
  predicate FirstStuck(waiting: seq<Option<Reason>>, r: Reason) {
    exists i :: 0 <= i < |waiting| && waiting[i] == Some(r) && Terminal(waiting[i])
                && forall j | 0 <= j < i :: !Terminal(waiting[j])
  }

  /** A decisive event yields the verdict `v`; running wins over failed, failed
      over a stuck pull, a stuck pull over the scheduler. */
  predicate Settles(e: PodEvent, v: Verdict) {
    match v
    case Placed => e.phase.Running?
    case StartFailed => e.phase.Failed?
    case CannotPull(r) => e.phase.OtherPhase? && FirstStuck(e.waiting, r)
    case Unschedulable => e.phase.OtherPhase? && !PullStuck(e) && SchedulerGaveUp(e)
    case NoVerdict => false
  }

  method ImagePullError(waiting: seq<Option<Reason>>) returns (r: Option<Reason>)
    ensures r.Some? ==> FirstStuck(waiting, r.value)
    ensures r.None? ==> forall w | w in waiting :: !Terminal(w)
  {
    for i := 0 to |waiting|
      invariant forall j | 0 <= j < i :: !Terminal(waiting[j])
    {
      if Terminal(waiting[i]) {
        return waiting[i];
      }
    }
    r := None;
  }

  method IsUnschedulable(conditions: seq<Condition>) returns (b: bool)
    ensures b <==> exists c :: c in conditions && GivenUp(c)
  {
    for i := 0 to |conditions|
      invariant forall j | 0 <= j < i :: !GivenUp(conditions[j])
    {
      if GivenUp(conditions[i]) {
        return true;
      }
    }
    b := false;
  }

  /** The verdict `v` is that of the first decisive event; there is none without
      such an event. */
  ghost predicate Decides(events: seq<PodEvent>, v: Verdict) {
    if v.NoVerdict? then forall i | 0 <= i < |events| :: !Decisive(events[i])
    else
      exists i :: 0 <= i < |events| && Settles(events[i], v) && forall j | 0 <= j < i :: !Decisive(events[j])
  }

  /** `_wait_placed`: the first decisive event alone decides; without one before
      the watch ends there is no verdict. */
  method WaitPlaced(events: seq<PodEvent>) returns (v: Verdict)
    ensures Decides(events, v)
    ensures v.NoVerdict? ==> forall i | 0 <= i < |events| :: !Decisive(events[i])
    ensures !v.NoVerdict? ==>
              exists i :: 0 <= i < |events| && Settles(events[i], v) && forall j | 0 <= j < i :: !Decisive(events[j])
  {
    for i := 0 to |events|
      invariant forall j | 0 <= j < i :: !Decisive(events[j])
    {
      var e := events[i];
      if e.phase.Running? {
        assert Settles(events[i], Placed);
        return Placed;
      }
      if e.phase.Failed? {
        assert Settles(events[i], StartFailed);
        return StartFailed;
      }
      var pull := ImagePullError(e.waiting);
      if pull.Some? {
        assert Settles(events[i], CannotPull(pull.value));
        return CannotPull(pull.value);
      }
      var gaveUp := IsUnschedulable(e.conditions);
      if gaveUp {
        assert Settles(events[i], Unschedulable);
        return Unschedulable;
      }
    }
    v := NoVerdict;
  }

  /** An event settles at most one verdict, and settles one exactly when it is
      decisive. */
  lemma VerdictUnique(e: PodEvent, v: Verdict, u: Verdict)
    requires Settles(e, v) && Settles(e, u)
    ensures v == u
  {}

  lemma DecisiveSettles(e: PodEvent)
    ensures Decisive(e) <==> exists v :: Settles(e, v)
  {
    if e.phase.Running? {
      assert Settles(e, Placed);
    } else if e.phase.Failed? {
      assert Settles(e, StartFailed);
    } else if PullStuck(e) {
      var r := Stuck(e.waiting);
      assert Settles(e, CannotPull(r));
    } else if SchedulerGaveUp(e) {
      assert Settles(e, Unschedulable);
    }
  }

  lemma Stuck(waiting: seq<Option<Reason>>) returns (r: Reason)
    requires exists w :: w in waiting && Terminal(w)
    ensures FirstStuck(waiting, r)
  {
    var i := 0;
    while !Terminal(waiting[i])
      invariant 0 <= i < |waiting| && forall j | 0 <= j < i :: !Terminal(waiting[j])
      invariant exists k :: i <= k < |waiting| && Terminal(waiting[k])
      decreases |waiting| - i
    {
      i := i + 1;
    }
    r := waiting[i].value;
  }

  /** A stream of events has one verdict. */
  lemma OneVerdict(events: seq<PodEvent>, v: Verdict, u: Verdict)
    requires Decides(events, v) && Decides(events, u)
    ensures v == u
  {
    if !v.NoVerdict? && !u.NoVerdict? {
      var i :| 0 <= i < |events| && Settles(events[i], v) && forall j | 0 <= j < i :: !Decisive(events[j]);
      var k :| 0 <= k < |events| && Settles(events[k], u) && forall j | 0 <= j < k :: !Decisive(events[j]);
      DecisiveSettles(events[i]);
      DecisiveSettles(events[k]);
      VerdictUnique(events[i], v, u);
    } else {
      forall i, w | 0 <= i < |events| && Settles(events[i], w) ensures Decisive(events[i]) {
        DecisiveSettles(events[i]);
      }
    }
  }

  /** A pod that neither runs nor has failed, whose containers wait for nothing but
      other reasons, and that the scheduler has not called unschedulable, settles
      nothing yet; every other event does. */
  lemma UndecidedMeans(e: PodEvent)
    ensures !Decisive(e)
            <==> && e.phase.OtherPhase?
                 && (forall w | w in e.waiting :: w.None? || w == Some(OtherReason))
                 && (forall c | c in e.conditions :: !(c.scheduled && c.isFalse && c.unschedulable))
  {}

  /** What each verdict says of the event that settles it. */
  lemma SettlesMeans(e: PodEvent, v: Verdict)
    requires Settles(e, v)
    ensures (e.phase.Running? <==> v == Placed) && (e.phase.Failed? <==> v == StartFailed) && v != NoVerdict
    ensures v.CannotPull? ==>
              && v.reason in {ImagePullBackOff, InvalidImageName, ImageInspectError, RegistryUnavailable}
              && exists i :: 0 <= i < |e.waiting| && e.waiting[i] == Some(v.reason)
                             && forall j | 0 <= j < i :: e.waiting[j] in {None, Some(OtherReason)}
    ensures v.Unschedulable? ==>
              && (forall w | w in e.waiting :: w in {None, Some(OtherReason)})
              && exists c :: c in e.conditions && c.scheduled && c.isFalse && c.unschedulable
  {
    if v.CannotPull? {
      var i :| 0 <= i < |e.waiting| && e.waiting[i] == Some(v.reason) && Terminal(e.waiting[i])
               && forall j | 0 <= j < i :: !Terminal(e.waiting[j]);
      assert forall j | 0 <= j < i :: e.waiting[j] in {None, Some(OtherReason)};
    }
  }

  // ---- placing a worker -----------------------------------------------------

  type Name = nat   // the serial number at the end of a pod's name

  // How the cluster answers a delete: the pod was seen gone, sixty seconds passed
  // without that, or a call raised.
  datatype Deletion = SeenGone | StillThere | DeleteRaises

  // The answer to the delete call, and to one read of the pod at a time.
  datatype DeleteCall = NotFound | Accepted | CallRaises
  datatype Reading = Present | Absent | ReadRaises
  datatype Poll = Poll(now: real, reading: Reading)

  /** `_delete`: gone only if a 404 was seen, at once or before the deadline; a
      raise is passed on; a deadline that passes says nothing. */
  method AwaitGone(call: DeleteCall, polls: seq<Poll>, deadline: real) returns (d: Deletion)
    ensures d.SeenGone?
            <==> || call.NotFound?
                 || (call.Accepted?
                     && exists n :: 0 <= n < |polls| && polls[n].now < deadline && polls[n].reading.Absent?
                                    && forall j | 0 <= j < n :: polls[j].now < deadline && polls[j].reading.Present?)
    ensures d.DeleteRaises?
            <==> || call.CallRaises?
                 || (call.Accepted?
                     && exists n :: 0 <= n < |polls| && polls[n].now < deadline && polls[n].reading.ReadRaises?
                                    && forall j | 0 <= j < n :: polls[j].now < deadline && polls[j].reading.Present?)
  {
    if call.NotFound? {
      return SeenGone;
    }
    if call.CallRaises? {
      return DeleteRaises;
    }
    var n := 0;
    while n < |polls| && polls[n].now < deadline
      invariant 0 <= n <= |polls|
      invariant forall j | 0 <= j < n :: polls[j].now < deadline && polls[j].reading.Present?
    {
      if polls[n].reading.Absent? {
        return SeenGone;
      }
      if polls[n].reading.ReadRaises? {
        return DeleteRaises;
      }
      n := n + 1;
    }
    d := StillThere;
  }

  // How it answers a create; a raised create may have made the pod all the same.
  datatype Creation = Created | Forbidden | CreateRaises(made: bool)

  datatype Spawned = NewWorker(name: Name) | NotPlaced | SpawnRaised

  /** What the cluster does during one `_try_spawn`. */
  datatype Answers = Answers(before: Deletion, creation: Creation, events: seq<PodEvent>, cleanup: Deletion)

  /** What makes an attempt place its worker, or be turned down; otherwise it
      raises. `taken` says that a pod of the same name would not go away. */
  ghost predicate Places(a: Answers, taken: bool) {
    !a.before.DeleteRaises? && a.creation.Created? && !taken && Decides(a.events, Placed)
  }

  ghost predicate TurnedDown(a: Answers, taken: bool) {
    && !a.before.DeleteRaises?
    && (a.creation.Forbidden?
        || (a.creation.Created? && !taken && Decides(a.events, Unschedulable) && !a.cleanup.DeleteRaises?))
  }

  class Spawner {
    var serial: nat
    var spawned: nat
    var pods: set<Name>   // the pods of this pool's naming that exist

    constructor (serial: nat, pods: set<Name>)
      ensures this.serial == serial && spawned == 0 && this.pods == pods
    {
      this.serial := serial;
      this.spawned := 0;
      this.pods := pods;
    }

    /** `_delete`; false when it raises. */
    method Delete(name: Name, d: Deletion) returns (ok: bool)
      modifies this`pods
      ensures ok <==> !d.DeleteRaises?
      ensures pods == if d.SeenGone? then old(pods) - {name} else old(pods)
    {
      ok := !d.DeleteRaises?;
      if d.SeenGone? {
        pods := pods - {name};
      }
    }

    /** `_try_spawn`. Serials strictly increase; no pod but the new name's is
        touched, so none of this pool's earlier workers is. When the deletes see
        the pod gone, a pod of that name survives exactly when a worker is
        returned or a create raised after making it. */
    method TrySpawn(a: Answers) returns (r: Spawned)
      modifies this
      ensures serial == old(serial) + 1 && spawned == old(spawned) + 1
      ensures pods - {serial} == old(pods) - {serial}
      ensures r.NewWorker? ==> r.name == serial && serial in pods
      ensures r.NewWorker?
              <==> && !a.before.DeleteRaises? && a.creation.Created? && Decides(a.events, Placed)
                   && (serial in old(pods) ==> a.before.SeenGone?)
      ensures r.NotPlaced?
              <==> && !a.before.DeleteRaises?
                   && (|| a.creation.Forbidden?
                       || (a.creation.Created? && Decides(a.events, Unschedulable) && !a.cleanup.DeleteRaises?
                           && (serial in old(pods) ==> a.before.SeenGone?)))
      ensures a.before.SeenGone? && a.cleanup.SeenGone? ==>
                (serial in pods <==> r.NewWorker? || (a.creation.CreateRaises? && a.creation.made))
    {
      serial := serial + 1;
      spawned := spawned + 1;
      var name := serial;
      var ok := Delete(name, a.before);
      if !ok {
        return SpawnRaised;
      }
      if a.creation.CreateRaises? {
        if a.creation.made {
          pods := pods + {name};
        }
        return SpawnRaised;
      }
      if a.creation.Forbidden? {
        return NotPlaced;
      }
      if name in pods {
        return SpawnRaised;      // the name is taken: the create conflicts
      }
      pods := pods + {name};
      var v := WaitPlaced(a.events);
      forall u | Decides(a.events, u) ensures u == v {
        OneVerdict(a.events, u, v);
      }
      if v.Placed? {
        return NewWorker(name);
      }
      ok := Delete(name, a.cleanup);
      r := if v.Unschedulable? && ok then NotPlaced else SpawnRaised;
    }
  }
}

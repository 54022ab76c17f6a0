/** No disagreement between an upstream object and its mirror is ever forgotten. */
module MirrorConvergence {
  import opened Wrappers
  import opened MirrorObjects
  import opened MirrorSystem
  import opened MirrorOwnership

  /** The local store shows for `k` what the informer cache asks for: a mirror with the wanted
      content, or no mirror of this source. */
  ghost predicate InSync(id: string, inst: Instance, local: Store, k: Key) {
    if k in inst.cache
    then k in local.objects && ContentOf(local.objects[k]) == ContentOf(Desired(inst.cache[k], id))
    else !(k in local.objects && SourceLabel(local.objects[k]) == id)
  }

  /** A mirror of this source is being deleted and finalizers still hold it. */
  ghost predicate Dying(id: string, local: Store, k: Key) {
    k in local.objects && SourceLabel(local.objects[k]) == id && local.objects[k].deleting
  }

  /** A notification that will put `k` on the queue has not been handled yet. */
  ghost predicate Pending(inst: Instance, k: Key) {
    exists i :: 0 <= i < |inst.events| && inst.events[i].key == k && !Suppressed(inst.events[i])
  }

  ghost predicate Noted(inst: Instance, k: Key) {
    k in inst.queue.dirty || Pending(inst, k)
  }

  ghost predicate AtWorker(inst: Instance, k: Key) {
    exists n :: 0 <= n < |inst.workers| && !inst.workers[n].Idle? && inst.workers[n].key == k
  }

  /** Queued, in a worker, awaiting retry, not yet swept, or with an undelivered event. */
  ghost predicate Active(inst: Instance, k: Key) {
    Noted(inst, k) || AtWorker(inst, k) || k in inst.delayed || k in inst.unswept
  }

  /** What a worker has seen is still what the cache holds, or its key is noted again. */
  ghost predicate WorkerCurrent(id: string, inst: Instance, local: Store, w: Worker, lost: set<Key>) {
    match w
    case HaveSource(k, s) => SourceCurrent(id, inst, k, s)
    case NamespaceReady(k, s) => SourceCurrent(id, inst, k, s)
    case WillCreate(k, s) => SourceCurrent(id, inst, k, s)
    case WillUpdate(k, s, _) => SourceCurrent(id, inst, k, s)
    case Absent(k) => Noted(inst, k) || k !in inst.cache
    case WillDelete(k) => Noted(inst, k) || k !in inst.cache
    case Finished(k, false) => Noted(inst, k) || InSync(id, inst, local, k) || Dying(id, local, k) || k in lost
    case _ => true
  }

  ghost predicate SourceCurrent(id: string, inst: Instance, k: Key, source: Object) {
    Noted(inst, k) || (k in inst.cache && Desired(inst.cache[k], id) == Desired(source, id))
  }

  ghost predicate WorkersCurrent(id: string, inst: Instance, local: Store, lost: set<Key>) {
    forall n :: 0 <= n < |inst.workers| && !inst.workers[n].Idle? && InScope(inst, inst.workers[n].key) ==>
      WorkerCurrent(id, inst, local, inst.workers[n], lost)
  }

  ghost predicate NothingForgotten(id: string, inst: Instance, local: Store, lost: set<Key>) {
    forall k :: InScope(inst, k) && !InSync(id, inst, local, k) && !Dying(id, local, k) && k !in lost ==>
      Active(inst, k)
  }

  /** Every worker's claim holds, and every disagreement is accounted for.  `lost` are keys whose mirror
      went when its deletion completed and that nobody has noted since. */
  ghost predicate Converging(id: string, inst: Instance, local: Store, lost: set<Key>) {
    WorkersCurrent(id, inst, local, lost) && NothingForgotten(id, inst, local, lost)
  }

  // ---- The local store changed by others ----

  /** Mirrors of `id` keep their content, none goes unless it was under deletion, no deletion is
      undone, and nobody else makes one. */
  ghost predicate QuietFor(id: string, s: Store, t: Store) {
    && (forall k :: k in s.objects && SourceLabel(s.objects[k]) == id ==>
          if k in t.objects
          then ContentOf(t.objects[k]) == ContentOf(s.objects[k]) && (s.objects[k].deleting ==> t.objects[k].deleting)
          else s.objects[k].deleting)
    && (forall k :: k in t.objects && SourceLabel(t.objects[k]) == id ==>
       k in s.objects && SourceLabel(s.objects[k]) == id)
  }

  lemma DesiredIsLabelled(source: Object, id: string)
    ensures SourceLabel(Desired(source, id)) == id
  {
  }

  /** The mirrors whose deletion completed. */
  ghost function Released(id: string, s: Store, t: Store): set<Key> {
    set k | k in s.objects && Dying(id, s, k) && k !in t.objects
  }

  lemma QuietKeepsInSync(id: string, inst: Instance, s: Store, t: Store, k: Key)
    requires QuietFor(id, s, t) && InSync(id, inst, s, k)
    ensures InSync(id, inst, t, k) || k in Released(id, s, t)
  {
    if k in inst.cache { DesiredIsLabelled(inst.cache[k], id); }
  }

  lemma QuietKeepsConverging(id: string, inst: Instance, s: Store, t: Store, lost: set<Key>)
    requires Converging(id, inst, s, lost) && QuietFor(id, s, t)
    ensures Converging(id, inst, t, lost + Released(id, s, t))
  {
    var more := lost + Released(id, s, t);
    forall k | InSync(id, inst, s, k) || Dying(id, s, k) || k in lost
      ensures InSync(id, inst, t, k) || Dying(id, t, k) || k in more
    {
      if InSync(id, inst, s, k) { QuietKeepsInSync(id, inst, s, t, k); }
    }
    forall n | 0 <= n < |inst.workers| && !inst.workers[n].Idle? && InScope(inst, inst.workers[n].key)
      ensures WorkerCurrent(id, inst, t, inst.workers[n], more)
    {
      assert WorkerCurrent(id, inst, s, inst.workers[n], lost);
    }
  }

  /** The lost keys that are still out of sync and not noted. */
  ghost function Still(id: string, inst: Instance, local: Store, lost: set<Key>): set<Key> {
    set k | k in lost && !InSync(id, inst, local, k) && !Noted(inst, k)
  }

  lemma StillConverging(id: string, inst: Instance, local: Store, lost: set<Key>, more: set<Key>)
    requires Converging(id, inst, local, lost) && lost <= more
    ensures Converging(id, inst, local, Still(id, inst, local, more))
  {
    forall n | 0 <= n < |inst.workers| && !inst.workers[n].Idle? && InScope(inst, inst.workers[n].key)
      ensures WorkerCurrent(id, inst, local, inst.workers[n], Still(id, inst, local, more))
    {
      assert WorkerCurrent(id, inst, local, inst.workers[n], lost);
    }
  }

  // ---- Informer, handler, sweep and timer ----

  /** `next` has the same workers and the same wishes as `inst`, and loses no note. */
  ghost predicate Remembers(id: string, inst: Instance, next: Instance) {
    && next.workers == inst.workers && next.target == inst.target && next.kinds == inst.kinds
    && (forall k :: InScope(inst, k) ==>
          && (Noted(inst, k) ==> Noted(next, k))
          && (Active(inst, k) ==> Active(next, k))
          && (Noted(next, k) || SameWish(id, inst, next, k)))
  }

  ghost predicate SameWish(id: string, inst: Instance, next: Instance, k: Key) {
    (k in inst.cache <==> k in next.cache) &&
    (k in inst.cache ==> Desired(inst.cache[k], id) == Desired(next.cache[k], id))
  }

  lemma RemembersKeepsConverging(id: string, inst: Instance, next: Instance, local: Store, lost: set<Key>)
    requires Converging(id, inst, local, lost) && Remembers(id, inst, next)
    ensures Converging(id, next, local, lost)
  {
    forall k | InScope(inst, k) && SameWish(id, inst, next, k)
      ensures InSync(id, inst, local, k) <==> InSync(id, next, local, k)
    {
    }
    forall n | 0 <= n < |inst.workers| && !inst.workers[n].Idle? && InScope(inst, inst.workers[n].key)
      ensures WorkerCurrent(id, next, local, inst.workers[n], lost)
    {
      assert WorkerCurrent(id, inst, local, inst.workers[n], lost);
    }
  }

  lemma PendingAppend(inst: Instance, next: Instance, more: seq<Event>, k: Key)
    requires next.events == inst.events + more
    ensures Pending(inst, k) ==> Pending(next, k)
    ensures |more| == 1 && more[0].key == k && !Suppressed(more[0]) ==> Pending(next, k)
  {
    if Pending(inst, k) {
      var i :| 0 <= i < |inst.events| && inst.events[i].key == k && !Suppressed(inst.events[i]);
      assert next.events[i] == inst.events[i];
    }
    if |more| == 1 { assert next.events[|inst.events|] == more[0]; }
  }

  lemma WatchRemembers(id: string, inst: Instance, k: Key)
    ensures Remembers(id, inst, WatchKey(inst, k))
  {
    var next := WatchKey(inst, k);
    var more := next.events[|inst.events|..];
    assert next.events == inst.events + more;
    forall j | InScope(inst, j)
      ensures (Noted(inst, j) ==> Noted(next, j)) && (Noted(next, j) || SameWish(id, inst, next, j))
    {
      PendingAppend(inst, next, more, j);
      if k in inst.cache && k in inst.upstream { SuppressedKeepsDesired(inst.cache[k], inst.upstream[k]); }
    }
    forall j | AtWorker(inst, j) ensures AtWorker(next, j) {}
  }

  lemma EnqueueNotes(inst: Instance, k: Key)
    ensures InScope(inst, k) ==> k in Enqueue(inst, k).queue.dirty
    ensures inst.queue.dirty <= Enqueue(inst, k).queue.dirty
    ensures Enqueue(inst, k) == inst.(queue := Enqueue(inst, k).queue)
  {
  }

  lemma HandleRemembers(id: string, inst: Instance)
    ensures Remembers(id, inst, HandleEvent(inst))
  {
    var next := HandleEvent(inst);
    if inst.events != [] {
      var e, rest := inst.events[0], inst.(events := inst.events[1..]);
      EnqueueNotes(rest, e.key);
      forall k | InScope(inst, k) && Noted(inst, k) ensures Noted(next, k) {
        if k !in inst.queue.dirty {
          var i :| 0 <= i < |inst.events| && inst.events[i].key == k && !Suppressed(inst.events[i]);
          if i > 0 { assert next.events[i - 1] == inst.events[i]; }
        }
      }
    }
    forall j | AtWorker(inst, j) ensures AtWorker(next, j) {}
  }

  lemma SweepRemembers(id: string, inst: Instance, k: Key)
    ensures Remembers(id, inst, SweepKey(inst, k))
  {
    var next := SweepKey(inst, k);
    EnqueueNotes(inst.(unswept := inst.unswept - {k}), k);
    forall j | Pending(inst, j) ensures Pending(next, j) {}
    forall j | AtWorker(inst, j) ensures AtWorker(next, j) {}
  }

  lemma DelayOverRemembers(id: string, inst: Instance, k: Key)
    ensures Remembers(id, inst, DelayOverKey(inst, k))
  {
    var next := DelayOverKey(inst, k);
    forall j | Pending(inst, j) ensures Pending(next, j) {}
    forall j | AtWorker(inst, j) ensures AtWorker(next, j) {}
  }

  lemma UpstreamRemembers(id: string, inst: Instance, k: Key, o: Option<Object>)
    ensures Remembers(id, inst, inst.(upstream := Put(inst.upstream, k, o)))
  {
    var next := inst.(upstream := Put(inst.upstream, k, o));
    forall j | Pending(inst, j) ensures Pending(next, j) {}
    forall j | AtWorker(inst, j) ensures AtWorker(next, j) {}
  }

  // ---- Workers ----

  /** One reconcile action: the worker ends the action with an up-to-date claim about its key. */
  lemma ReconcileKeepsCurrent(id: string, inst: Instance, local: Store, w: Worker, outcome: Outcome, lost: set<Key>)
    requires Holding(w).Some? && !w.Finished? && InScope(inst, w.key) && WorkerCurrent(id, inst, local, w, lost)
    ensures var (next, local') := ReconcileStep(id, inst, local, w, outcome); WorkerCurrent(id, inst, local', next,
              lost)
  {
  }

  /** A worker's claim depends only on cache, events, dirty keys and store. */
  lemma SameClaims(id: string, inst: Instance, next: Instance, local: Store, w: Worker, lost: set<Key>)
    requires next.cache == inst.cache && next.events == inst.events && inst.queue.dirty <= next.queue.dirty
    requires WorkerCurrent(id, inst, local, w, lost)
    ensures WorkerCurrent(id, next, local, w, lost)
  {
    assert forall k :: Pending(inst, k) ==> Pending(next, k);
  }

  /** Keys other than the acting worker's see no change in the store. */
  lemma ElsewhereInSync(id: string, inst: Instance, s: Store, t: Store, k: Key)
    requires Lookup(s.objects, k) == Lookup(t.objects, k)
    ensures InSync(id, inst, s, k) <==> InSync(id, inst, t, k)
    ensures Dying(id, s, k) <==> Dying(id, t, k)
  {
  }

  /** Worker `n` acted on key `k`: nothing changed for other keys, and `k` is accounted for. */
  lemma ActionKeepsConverging(id: string, inst: Instance, next: Instance, s: Store, t: Store, n: nat, k: Key,
                              lost: set<Key>)
    requires Converging(id, inst, s, lost)
    requires n < |inst.workers| == |next.workers| && next.workers == inst.workers[n := next.workers[n]]
    requires next.target == inst.target && next.kinds == inst.kinds && next.cache == inst.cache
    requires next.events == inst.events && next.unswept == inst.unswept && inst.delayed <= next.delayed
    requires inst.queue.dirty - {k} <= next.queue.dirty
    requires forall j :: j != k ==> Lookup(s.objects, j) == Lookup(t.objects, j)
    requires !inst.workers[n].Idle? ==> inst.workers[n].key == k
    requires !next.workers[n].Idle? ==> next.workers[n].key == k
    requires forall m ::
               0 <= m < |inst.workers| && m != n && Holding(inst.workers[m]) == Some(k) && InScope(inst, k) ==>
               WorkerCurrent(id, next, t, inst.workers[m], lost)
    requires !next.workers[n].Idle? && InScope(inst, k) ==> WorkerCurrent(id, next, t, next.workers[n], lost)
    requires InScope(inst, k) ==> Active(next, k) || InSync(id, next, t, k) || Dying(id, t, k) || k in lost
    ensures Converging(id, next, t, lost)
  {
    forall j | j != k
      ensures InSync(id, inst, s, j) <==> InSync(id, next, t, j)
      ensures Dying(id, s, j) <==> Dying(id, t, j)
      ensures Noted(inst, j) ==> Noted(next, j)
    {
      ElsewhereInSync(id, inst, s, t, j);
      assert Pending(inst, j) ==> Pending(next, j);
    }
    forall j | j != k && AtWorker(inst, j) ensures AtWorker(next, j) {
      var m :| 0 <= m < |inst.workers| && !inst.workers[m].Idle? && inst.workers[m].key == j;
      assert next.workers[m] == inst.workers[m];
    }
    forall m | 0 <= m < |next.workers| && !next.workers[m].Idle? && InScope(next, next.workers[m].key)
      ensures WorkerCurrent(id, next, t, next.workers[m], lost)
    {
      if m != n { assert WorkerCurrent(id, inst, s, inst.workers[m], lost); }
    }
  }

  lemma PickKeepsConverging(id: string, inst: Instance, local: Store, n: nat, lost: set<Key>)
    requires n < |inst.workers| && Exclusive(inst) && Converging(id, inst, local, lost)
    requires inst.workers[n].Idle? && inst.queue.order != []
    ensures var w := Picked(inst.queue.order[0]);
            Converging(id, inst.(queue := inst.queue.Get(), workers := inst.workers[n := w]), local, lost)
  {
    var k := inst.queue.order[0];
    var next := inst.(queue := inst.queue.Get(), workers := inst.workers[n := Picked(k)]);
    QueueStaysValid(inst.queue, k);
    assert AtWorker(next, k) by { assert !next.workers[n].Idle?; }
    ActionKeepsConverging(id, inst, next, local, local, n, k, lost);
  }

  lemma FinishKeepsConverging(id: string, inst: Instance, local: Store, n: nat, k: Key, failed: bool, lost: set<Key>)
    requires n < |inst.workers| && Exclusive(inst) && Converging(id, inst, local, lost)
    requires inst.workers[n] == Finished(k, failed)
    ensures var w := if failed then Retrying(k) else Idle;
            Converging(id, inst.(queue := inst.queue.Finish(k), workers := inst.workers[n := w]), local, lost)
  {
    var w := if failed then Retrying(k) else Idle;
    var next := inst.(queue := inst.queue.Finish(k), workers := inst.workers[n := w]);
    if failed {
      assert AtWorker(next, k) by { assert !next.workers[n].Idle?; }
    } else if InScope(inst, k) {
      assert WorkerCurrent(id, inst, local, inst.workers[n], lost);
      SameClaims(id, inst, next, local, inst.workers[n], lost);
    }
    ActionKeepsConverging(id, inst, next, local, local, n, k, lost);
  }

  lemma RetryKeepsConverging(id: string, inst: Instance, local: Store, n: nat, k: Key, lost: set<Key>)
    requires n < |inst.workers| && Converging(id, inst, local, lost) && inst.workers[n] == Retrying(k)
    ensures Converging(id, inst.(delayed := inst.delayed + {k}, workers := inst.workers[n := Idle]), local, lost)
  {
    var next := inst.(delayed := inst.delayed + {k}, workers := inst.workers[n := Idle]);
    forall m | 0 <= m < |inst.workers| && m != n && Holding(inst.workers[m]) == Some(k) && InScope(inst, k)
      ensures WorkerCurrent(id, next, local, inst.workers[m], lost)
    {
      SameClaims(id, inst, next, local, inst.workers[m], lost);
    }
    ActionKeepsConverging(id, inst, next, local, local, n, k, lost);
  }

  lemma ReconcileKeepsConverging(id: string, inst: Instance, local: Store, n: nat, w: Worker, outcome: Outcome,
                                 lost: set<Key>)
    requires n < |inst.workers| && StoreOk(local) && SnapshotsHold(id, inst, local) && Exclusive(inst)
    requires Converging(id, inst, local, lost) && w == inst.workers[n] && Holding(w).Some? && !w.Finished?
    ensures var (w', local') := ReconcileStep(id, inst, local, w, outcome);
            Converging(id, inst.(workers := inst.workers[n := w']), local', lost)
  {
    var (w', after) := ReconcileStep(id, inst, local, w, outcome);
    var next := inst.(workers := inst.workers[n := w']);
    WorkIsLocal(id, inst, local, n, outcome);
    ReconcileFacts(id, inst, local, w, outcome);
    if InScope(inst, w.key) {
      assert WorkerCurrent(id, inst, local, w, lost);
      ReconcileKeepsCurrent(id, inst, local, w, outcome, lost);
      SameClaims(id, inst, next, after, w', lost);
    }
    assert AtWorker(next, w.key) by { assert !next.workers[n].Idle?; }
    ActionKeepsConverging(id, inst, next, local, after, n, w.key, lost);
  }

  lemma WorkKeepsConverging(id: string, inst: Instance, local: Store, n: nat, outcome: Outcome, lost: set<Key>)
    requires n < |inst.workers| && StoreOk(local) && SnapshotsHold(id, inst, local) && Exclusive(inst)
    requires Converging(id, inst, local, lost)
    ensures var (inst', local') := WorkStep(id, inst, local, n, outcome); Converging(id, inst', local', lost)
  {
    match inst.workers[n] {
      case Idle =>
        if inst.unswept == {} && inst.queue.order != [] { PickKeepsConverging(id, inst, local, n, lost); }
      case Finished(k, failed) => FinishKeepsConverging(id, inst, local, n, k, failed, lost);
      case Retrying(k) => RetryKeepsConverging(id, inst, local, n, k, lost);
      case w => ReconcileKeepsConverging(id, inst, local, n, w, outcome, lost);
    }
  }

  // ---- Runs ----

  /** Other writers leave the content of the mirrors of `id` alone, remove none that is not under
      deletion, and do not make objects that carry the label.  They may mark mirrors for deletion,
      put finalizers, owners or status on them, and let deletions complete.  Other instances make no
      Delete that hits an object of another label. */
  ghost predicate Cooperative(id: string, world: World, step: Step) {
    && (step.External? ==> QuietFor(id, world.local, Next(world, step).local))
    && (step.Work? && step.id != id && step.id in world.instances &&
        step.worker < |world.instances[step.id].workers| ==>
          !DeletesForeign(step.id, world.instances[step.id], world.local, step.worker, step.outcome))
  }

  ghost predicate AllCooperative(id: string, world: World, steps: seq<Step>)
    decreases |steps|
  {
    steps != [] ==> Cooperative(id, world, steps[0]) && AllCooperative(id, Next(world, steps[0]), steps[1..])
  }

  /** Instances are cooperative as long as others leave their mirrors in place. */
  lemma OwningIsCooperative(id: string, world: World, step: Step)
    requires Owning(world) && !step.External?
    ensures Cooperative(id, world, step)
  {
  }

  /** Another instance writes only its own mirrors, so it is quiet for `id`. */
  lemma OthersAreQuiet(id: string, other: string, s: Store, t: Store)
    requires WritesOnly(other, s, t) && other != id
    ensures QuietFor(id, s, t)
  {
    forall k | k in s.objects && SourceLabel(s.objects[k]) == id ensures Lookup(t.objects, k) == Lookup(s.objects, k) {}
    forall k | k in t.objects && SourceLabel(t.objects[k]) == id ensures Lookup(t.objects, k) == Lookup(s.objects, k) {}
  }

  ghost predicate Sound(id: string, world: World, lost: set<Key>) {
    Base(world) && id in world.instances && Converging(id, world.instances[id], world.local, lost)
  }

  /** The lost keys after a step: those before and those released by it that are still lost. */
  ghost function LostNext(id: string, world: World, step: Step, lost: set<Key>): set<Key> {
    var after := Next(world, step);
    if id !in after.instances then {}
    else Still(id, after.instances[id], after.local, lost + Released(id, world.local, after.local))
  }

  /** The lost keys at the end of a run. */
  ghost function Lost(id: string, world: World, steps: seq<Step>, lost: set<Key>): set<Key>
    decreases |steps|
  {
    if steps == [] then lost
    else Lost(id, Next(world, steps[0]), steps[1..], LostNext(id, world, steps[0], lost))
  }

  lemma OtherStepIsQuiet(id: string, world: World, step: Step)
    requires Base(world) && Cooperative(id, world, step) && !step.External? && step.id != id
    ensures QuietFor(id, world.local, Next(world, step).local)
  {
    if step.id in world.instances {
      NextIsActed(world, step);
      if step.Work? && step.worker < |world.instances[step.id].workers| {
        WorkWritesOwnIff(step.id, world.instances[step.id], world.local, step.worker, step.outcome);
      }
    }
    OthersAreQuiet(id, step.id, world.local, Next(world, step).local);
  }

  lemma NextKeepsSound(id: string, world: World, step: Step, lost: set<Key>)
    requires Sound(id, world, lost) && Cooperative(id, world, step)
    ensures Sound(id, Next(world, step), LostNext(id, world, step, lost))
  {
    NextKeepsBase(world, step);
    var inst, after := world.instances[id], Next(world, step);
    var more := lost + Released(id, world.local, after.local);
    if !step.External? && step.id in world.instances { NextIsActed(world, step); }
    if step.External? || step.id != id {
      if !step.External? { OtherStepIsQuiet(id, world, step); }
      QuietKeepsConverging(id, inst, world.local, after.local, lost);
      StillConverging(id, inst, after.local, more, more);
    } else {
      OwnStepKeepsConverging(inst, world.local, step, lost);
      StillConverging(id, after.instances[id], after.local, lost, more);
    }
  }

  lemma OwnStepKeepsConverging(inst: Instance, local: Store, step: Step, lost: set<Key>)
    requires !step.External? && StoreOk(local) && SnapshotsHold(step.id, inst, local) && Exclusive(inst)
    requires Converging(step.id, inst, local, lost)
    ensures var (inst', local') := Acted(inst, local, step); Converging(step.id, inst', local', lost)
  {
    match step {
      case UpstreamWrite(id, k, o) => UpstreamRemembers(id, inst, k, o);
      case Watch(id, k) => WatchRemembers(id, inst, k);
      case Handle(id) => HandleRemembers(id, inst);
      case Sweep(id, k) => SweepRemembers(id, inst, k);
      case DelayOver(id, k) => DelayOverRemembers(id, inst, k);
      case Work(id, n, outcome) =>
        if n < |inst.workers| { WorkKeepsConverging(id, inst, local, n, outcome, lost); }
    }
    if !step.Work? {
      RemembersKeepsConverging(step.id, inst, Acted(inst, local, step).0, local, lost);
    }
  }

  /** The initial notifications together with the sweep account for every disagreement. */
  lemma StartingConverges(id: string, inst: Instance, local: Store)
    requires Starting(id, inst, local)
    ensures Converging(id, inst, local, {})
  {
    forall n | 0 <= n < |inst.workers| ensures inst.workers[n].Idle? { assert inst.workers[n] in inst.workers; }
    forall k | InScope(inst, k) && !InSync(id, inst, local, k) ensures Active(inst, k) {
      if k in inst.cache {
        var i :| 0 <= i < |inst.events| && inst.events[i] == Added(k);
        assert Pending(inst, k);
      }
    }
  }

  lemma {:induction false} RunKeepsSound(id: string, world: World, steps: seq<Step>, lost: set<Key>)
    requires Sound(id, world, lost) && AllCooperative(id, world, steps)
    ensures Sound(id, Run(world, steps), Lost(id, world, steps, lost))
    decreases |steps|
  {
    if steps != [] {
      NextKeepsSound(id, world, steps[0], lost);
      RunKeepsSound(id, Next(world, steps[0]), steps[1..], LostNext(id, world, steps[0], lost));
    }
  }

  /** Lost keys are out of sync. */
  lemma {:induction false} LostIsOutOfSync(id: string, world: World, steps: seq<Step>, lost: set<Key>)
    requires id in world.instances && forall k :: k in lost ==> !InSync(id, world.instances[id], world.local, k)
    ensures var now := Run(world, steps);
            id in now.instances &&
            forall k :: k in Lost(id, world, steps, lost) ==> !InSync(id, now.instances[id], now.local, k)
    decreases |steps|
  {
    if steps != [] { LostIsOutOfSync(id, Next(world, steps[0]), steps[1..], LostNext(id, world, steps[0], lost)); }
  }

  // ---- What every reachable state satisfies, field by field ----

  /** `objects` shows for `k` what `wanted` asks for: a mirror of the wanted object, or no mirror of
      this source. */
  ghost predicate Mirrored(id: string, wanted: map<Key, Object>, objects: map<Key, Object>, k: Key) {
    if k in wanted then k in objects && Mirrors(objects[k], wanted[k], id)
    else !(k in objects && Carries(objects[k], id))
  }

  ghost predicate UnderDeletion(id: string, objects: map<Key, Object>, k: Key) {
    k in objects && Carries(objects[k], id) && objects[k].deleting
  }

  lemma MirroredIffInSync(id: string, inst: Instance, local: Store, k: Key)
    requires id != ""
    ensures InSync(id, inst, local, k) <==> Mirrored(id, inst.cache, local.objects, k)
    ensures Dying(id, local, k) <==> UnderDeletion(id, local.objects, k)
  {
    if k in local.objects {
      var o := local.objects[k];
      FieldsDecide(o, if k in inst.cache then inst.cache[k] else o, id);
    }
  }

  /** Convergence: in every reachable state a key of a mirrored kind that passes the namespace
      filter and whose mirror disagrees with the informer cache is queued, at a worker, awaiting
      retry, unswept or has an unhandled event, or else its mirror is being deleted, or was and is
      lost. */
  lemma DisagreementIsActive(id: string, world: World, steps: seq<Step>, k: Key)
    requires Initial(world) && id != "" && id in world.instances && AllCooperative(id, world, steps)
    ensures var now := Run(world, steps);
            id in now.instances &&
            var inst := now.instances[id];
            k.kind in inst.kinds && (inst.target == "" || k.namespace == inst.target) &&
            !Mirrored(id, inst.cache, now.local.objects, k) ==>
              || k in inst.queue.dirty || k in inst.delayed || k in inst.unswept || AtWorker(inst, k) ||
                 Pending(inst, k)
              || UnderDeletion(id, now.local.objects, k) || k in Lost(id, world, steps, {})
  {
    InitialIsBase(world);
    StartingConverges(id, world.instances[id], world.local);
    RunKeepsSound(id, world, steps, {});
    var now := Run(world, steps);
    MirroredIffInSync(id, now.instances[id], now.local, k);
  }

  /** No event is undelivered, no key is queued, delayed or unswept, and every worker waits. */
  ghost predicate Quiescent(inst: Instance) {
    && inst.cache == inst.upstream && inst.events == []
    && inst.queue.dirty == {} && inst.delayed == {} && inst.unswept == {}
    && forall n :: 0 <= n < |inst.workers| ==> inst.workers[n].Idle?
  }

  /** In an idle system a key in scope fails to mirror upstream if and only if its mirror is being
      deleted and upstream lacks it or wants other content, or its mirror went when its deletion
      completed and the key has not been noted or brought in sync since. */
  lemma IdleIsInSync(id: string, world: World, steps: seq<Step>, k: Key)
    requires Initial(world) && id != "" && id in world.instances && AllCooperative(id, world, steps)
    ensures var now := Run(world, steps);
            id in now.instances &&
            var inst, objects := now.instances[id], now.local.objects;
            Quiescent(inst) && k.kind in inst.kinds && (inst.target == "" || k.namespace == inst.target) ==>
              (!Mirrored(id, inst.upstream, objects, k) <==>
               || (UnderDeletion(id, objects, k) && (k in inst.upstream ==> !Mirrors(objects[k], inst.upstream[k], id)))
               || k in Lost(id, world, steps, {}))
  {
    DisagreementIsActive(id, world, steps, k);
    LostIsOutOfSync(id, world, steps, {});
    var now := Run(world, steps);
    MirroredIffInSync(id, now.instances[id], now.local, k);
  }
}

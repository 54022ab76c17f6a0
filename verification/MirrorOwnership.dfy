/** Which objects the mirror writes, and which of their fields, over every run. */
module MirrorOwnership {
  import opened Wrappers
  import opened MirrorObjects
  import opened MirrorSystem

  // ---- Versions ----

  ghost predicate StoreOk(s: Store) {
    forall k :: k in s.objects ==> s.objects[k].version < s.clock
  }

  /** Whatever differs after a step carries a version not used before. */
  ghost predicate Fresh(s: Store, t: Store) {
    && s.clock <= t.clock
    && forall k :: k in t.objects ==>
         (k in s.objects && t.objects[k] == s.objects[k]) || t.objects[k].version >= s.clock
  }

  /** A worker about to update owns what it read, and if the version still matches then the
      stored object is still the one it read. */
  ghost predicate SnapshotsHold(id: string, inst: Instance, local: Store) {
    forall n :: 0 <= n < |inst.workers| && inst.workers[n].WillUpdate? ==>
      var w := inst.workers[n];
      && SourceLabel(w.current) == id && w.current.version < local.clock
      && (w.key in local.objects && local.objects[w.key].version == w.current.version ==>
         local.objects[w.key] == w.current)
  }

  /** One worker per key: busy workers hold different keys of the processing set. */
  ghost predicate Exclusive(inst: Instance) {
    && inst.queue.Valid()
    && (forall n :: 0 <= n < |inst.workers| && Holding(inst.workers[n]).Some? ==>
          inst.workers[n].key in inst.queue.processing)
    && (forall m, n ::
          0 <= m < n < |inst.workers| && Holding(inst.workers[m]).Some? && Holding(inst.workers[n]).Some? ==>
          inst.workers[m].key != inst.workers[n].key)
  }

  ghost predicate Base(world: World) {
    && StoreOk(world.local)
    && forall id :: id in world.instances ==>
         SnapshotsHold(id, world.instances[id], world.local) && Exclusive(world.instances[id])
  }

  /** The local store changes at most at `k`, and there to a fresh version. */
  ghost predicate ChangesOnly(s: Store, t: Store, k: Key) {
    Fresh(s, t) && StoreOk(t) && forall j :: j != k ==> Lookup(t.objects, j) == Lookup(s.objects, j)
  }

  lemma PutIsLocal(s: Store, k: Key, o: Object)
    requires StoreOk(s) && o.version == s.clock
    ensures ChangesOnly(s, Store(s.objects[k := o], s.clock + 1), k)
  {
  }

  lemma RemoveIsLocal(s: Store, k: Key)
    requires StoreOk(s)
    ensures ChangesOnly(s, Store(s.objects - {k}, s.clock + 1), k)
  {
  }

  lemma CreateIsLocal(s: Store, k: Key, o: Object)
    requires StoreOk(s)
    ensures ChangesOnly(s, Create(s, k, o).1, k)
  {
    PutIsLocal(s, k, o.(version := s.clock, uid := s.clock, created := s.clock));
  }

  lemma UpdateIsLocal(s: Store, k: Key, o: Object)
    requires StoreOk(s)
    ensures ChangesOnly(s, Update(s, k, o).1, k)
  {
    if k in s.objects { PutIsLocal(s, k, o.(version := s.clock, deleting := s.objects[k].deleting)); }
  }

  lemma DeleteIsLocal(s: Store, k: Key)
    requires StoreOk(s)
    ensures ChangesOnly(s, Delete(s, k).1, k)
  {
    RemoveIsLocal(s, k);
    if k in s.objects { PutIsLocal(s, k, s.objects[k].(deleting := true, version := s.clock)); }
  }

  lemma WorkIsLocal(id: string, inst: Instance, local: Store, n: nat, outcome: Outcome)
    requires n < |inst.workers| && StoreOk(local)
    ensures var local' := WorkStep(id, inst, local, n, outcome).1;
            if Holding(inst.workers[n]).Some? then ChangesOnly(local, local', inst.workers[n].key) else local' == local
  {
    match inst.workers[n] {
      case WillCreate(k, source) => CreateIsLocal(local, k, Desired(source, id));
      case WillUpdate(k, source, current) => UpdateIsLocal(local, k, CarryLocal(Desired(source, id), current));
      case WillDelete(k) => DeleteIsLocal(local, k);
      case _ =>
    }
  }

  lemma FreshKeepsSnapshots(id: string, inst: Instance, s: Store, t: Store)
    requires SnapshotsHold(id, inst, s) && Fresh(s, t)
    ensures SnapshotsHold(id, inst, t)
  {
  }

  /** A reconcile action keeps the worker's key, and an update is planned on what is stored. */
  lemma ReconcileFacts(id: string, inst: Instance, local: Store, w: Worker, outcome: Outcome)
    requires Holding(w).Some? && !w.Finished?
    ensures var (next, local') := ReconcileStep(id, inst, local, w, outcome);
            && Holding(next) == Holding(w)
            && (next.WillUpdate? ==> local' == local && w.NamespaceReady? && SourceLabel(next.current) == id &&
                                     Lookup(local.objects, next.key) == Some(next.current))
            && (next.WillDelete? ==>
                  local' == local && next.key in local.objects && SourceLabel(local.objects[next.key]) == id)
  {
  }

  lemma WorkKeepsSnapshots(id: string, inst: Instance, local: Store, n: nat, outcome: Outcome)
    requires n < |inst.workers| && StoreOk(local) && SnapshotsHold(id, inst, local)
    ensures var (inst', local') := WorkStep(id, inst, local, n, outcome); SnapshotsHold(id, inst', local')
  {
    WorkIsLocal(id, inst, local, n, outcome);
    var (inst', local') := WorkStep(id, inst, local, n, outcome);
    FreshKeepsSnapshots(id, inst, local, local');
    var w := inst.workers[n];
    if Holding(w).Some? && !w.Finished? { ReconcileFacts(id, inst, local, w, outcome); }
    assert forall m :: 0 <= m < |inst.workers| && m != n ==> inst'.workers[m] == inst.workers[m];
  }

  /** Replacing one worker keeps exclusion if its new key is its own. */
  lemma ReplaceWorker(inst: Instance, n: nat, w: Worker, q: Queue)
    requires n < |inst.workers| && Exclusive(inst) && q.Valid()
    requires forall m :: 0 <= m < |inst.workers| && m != n && Holding(inst.workers[m]).Some? ==>
               inst.workers[m].key in q.processing && Holding(w) != Some(inst.workers[m].key)
    requires Holding(w).Some? ==> w.key in q.processing
    ensures Exclusive(inst.(queue := q, workers := inst.workers[n := w]))
  {
  }

  lemma WorkKeepsExclusive(id: string, inst: Instance, local: Store, n: nat, outcome: Outcome)
    requires n < |inst.workers| && Exclusive(inst)
    ensures Exclusive(WorkStep(id, inst, local, n, outcome).0)
  {
    match inst.workers[n] {
      case Idle =>
        if inst.unswept == {} && inst.queue.order != [] {
          QueueStaysValid(inst.queue, inst.queue.order[0]);
          ReplaceWorker(inst, n, Picked(inst.queue.order[0]), inst.queue.Get());
        }
      case Finished(k, failed) =>
        QueueStaysValid(inst.queue, k);
        ReplaceWorker(inst, n, if failed then Retrying(k) else Idle, inst.queue.Finish(k));
      case Retrying(k) =>
        ReplaceWorker(inst, n, Idle, inst.queue);
      case w =>
        ReconcileFacts(id, inst, local, w, outcome);
        ReplaceWorker(inst, n, ReconcileStep(id, inst, local, w, outcome).0, inst.queue);
    }
  }

  /** Steps of the informer, handler, sweep and timer touch neither workers nor processing set. */
  lemma OtherStepsKeepExclusive(inst: Instance, k: Key)
    requires Exclusive(inst)
    ensures Exclusive(WatchKey(inst, k)) && Exclusive(HandleEvent(inst)) && Exclusive(SweepKey(inst, k)) &&
              Exclusive(DelayOverKey(inst, k))
  {
    QueueStaysValid(inst.queue, k);
    if inst.events != [] { QueueStaysValid(inst.queue, inst.events[0].key); }
    SameWorkers(inst, WatchKey(inst, k));
    SameWorkers(inst, HandleEvent(inst));
    SameWorkers(inst, SweepKey(inst, k));
    SameWorkers(inst, DelayOverKey(inst, k));
  }

  lemma SameWorkers(inst: Instance, next: Instance)
    requires Exclusive(inst) && next.workers == inst.workers && next.queue.Valid() &&
               next.queue.processing == inst.queue.processing
    ensures Exclusive(next)
  {
  }

  /** The instance and the store after a step of instance `id`. */
  ghost function Acted(inst: Instance, local: Store, step: Step): (Instance, Store)
    requires !step.External?
  {
    match step
    case UpstreamWrite(_, k, o) => (inst.(upstream := Put(inst.upstream, k, o)), local)
    case Watch(_, k) => (WatchKey(inst, k), local)
    case Handle(_) => (HandleEvent(inst), local)
    case Sweep(_, k) => (SweepKey(inst, k), local)
    case DelayOver(_, k) => (DelayOverKey(inst, k), local)
    case Work(id, n, outcome) => if n < |inst.workers| then WorkStep(id, inst, local, n, outcome) else (inst, local)
  }

  lemma NextIsActed(world: World, step: Step)
    requires !step.External? && step.id in world.instances
    ensures var (inst', local') := Acted(world.instances[step.id], world.local, step);
            Next(world, step) == World(local', world.instances[step.id := inst'])
  {
    assert world.instances == world.instances[step.id := world.instances[step.id]];
  }

  lemma ActedKeepsBase(inst: Instance, local: Store, step: Step)
    requires !step.External? && StoreOk(local) && SnapshotsHold(step.id, inst, local) && Exclusive(inst)
    ensures var (inst', local') := Acted(inst, local, step);
            SnapshotsHold(step.id, inst', local') && Exclusive(inst') && Fresh(local, local') && StoreOk(local')
  {
    if step.Work? {
      if step.worker < |inst.workers| {
        WorkIsLocal(step.id, inst, local, step.worker, step.outcome);
        WorkKeepsSnapshots(step.id, inst, local, step.worker, step.outcome);
        WorkKeepsExclusive(step.id, inst, local, step.worker, step.outcome);
      }
    } else {
      OtherStepsKeepExclusive(inst, if step.Handle? then Key("", "", "") else step.key);
    }
  }

  lemma NextKeepsBase(world: World, step: Step)
    requires Base(world)
    ensures Base(Next(world, step)) && Fresh(world.local, Next(world, step).local)
  {
    var after := Next(world, step);
    if !step.External? && step.id in world.instances {
      NextIsActed(world, step);
      ActedKeepsBase(world.instances[step.id], world.local, step);
    }
    forall id | id in world.instances && (step.External? || id != step.id)
      ensures id in after.instances && after.instances[id] == world.instances[id] &&
                SnapshotsHold(id, world.instances[id], after.local)
    {
      FreshKeepsSnapshots(id, world.instances[id], world.local, after.local);
    }
  }

  lemma {:induction false} RunKeepsBase(world: World, steps: seq<Step>)
    requires Base(world)
    ensures Base(Run(world, steps))
    decreases |steps|
  {
    if steps != [] {
      NextKeepsBase(world, steps[0]);
      RunKeepsBase(Next(world, steps[0]), steps[1..]);
    }
  }

  lemma InitialIsBase(world: World)
    requires Initial(world)
    ensures Base(world)
  {
    forall id, n | id in world.instances && 0 <= n < |world.instances[id].workers|
      ensures world.instances[id].workers[n].Idle?
    {
      assert world.instances[id].workers[n] in world.instances[id].workers;
    }
  }

  // ---- Local fields ----

  ghost predicate KeepsLocalFields(s: Store, t: Store) {
    forall k :: k in s.objects && k in t.objects ==>
      var o, p := s.objects[k], t.objects[k];
      p.status == o.status && p.uid == o.uid && p.owners == o.owners && p.finalizers == o.finalizers
  }

  /** In every reachable state, whatever other writers did between a worker's Get and its
      Update, a worker step leaves status, UID, owner references and finalizers as they are. */
  lemma LocalFieldsSurvive(world: World, steps: seq<Step>, id: string, n: nat, outcome: Outcome)
    requires Initial(world)
    ensures var now := Run(world, steps); KeepsLocalFields(now.local, Next(now, Work(id, n, outcome)).local)
  {
    InitialIsBase(world);
    RunKeepsBase(world, steps);
    var now := Run(world, steps);
    NextKeepsLocalFields(now, Work(id, n, outcome));
  }

  lemma NextKeepsLocalFields(world: World, step: Step)
    requires Base(world) && step.Work?
    ensures KeepsLocalFields(world.local, Next(world, step).local)
  {
    if step.id in world.instances && step.worker < |world.instances[step.id].workers| {
      NextIsActed(world, step);
      WorkKeepsLocalFields(step.id, world.instances[step.id], world.local, step.worker, step.outcome);
    }
  }

  lemma UpdateKeepsLocalFields(s: Store, k: Key, desired: Object, current: Object)
    requires k in s.objects && s.objects[k].version == current.version ==> s.objects[k] == current
    ensures KeepsLocalFields(s, Update(s, k, CarryLocal(desired, current)).1)
  {
  }

  lemma DeleteKeepsLocalFields(s: Store, k: Key)
    ensures KeepsLocalFields(s, Delete(s, k).1)
  {
  }

  lemma WorkKeepsLocalFields(id: string, inst: Instance, local: Store, n: nat, outcome: Outcome)
    requires n < |inst.workers| && SnapshotsHold(id, inst, local)
    ensures KeepsLocalFields(local, WorkStep(id, inst, local, n, outcome).1)
  {
    match inst.workers[n] {
      case WillUpdate(k, source, current) => UpdateKeepsLocalFields(local, k, Desired(source, id), current);
      case WillDelete(k) => DeleteKeepsLocalFields(local, k);
      case _ =>
    }
  }

  // ---- Ownership ----

  /** Another writer may do anything except remove, recreate or relabel a mirror. */
  ghost predicate KeepsMirrors(world: World, step: Step) {
    step.External? && step.key in world.local.objects &&
      SourceLabel(world.local.objects[step.key]) in world.instances ==>
      step.put.Some? && SourceLabel(step.put.value) == SourceLabel(world.local.objects[step.key])
  }

  ghost predicate AllKeepMirrors(world: World, steps: seq<Step>)
    decreases |steps|
  {
    steps != [] ==> KeepsMirrors(world, steps[0]) && AllKeepMirrors(Next(world, steps[0]), steps[1..])
  }

  /** A worker about to delete still faces a mirror of its own source. */
  ghost predicate DeletesOwn(id: string, inst: Instance, local: Store) {
    forall n :: 0 <= n < |inst.workers| && inst.workers[n].WillDelete? ==>
      inst.workers[n].key in local.objects && SourceLabel(local.objects[inst.workers[n].key]) == id
  }

  ghost predicate Owning(world: World) {
    Base(world) && forall id :: id in world.instances ==> DeletesOwn(id, world.instances[id], world.local)
  }

  /** Everything that differs was, if present before, and is, if present after, labelled `id`. */
  ghost predicate WritesOnly(id: string, s: Store, t: Store) {
    forall k :: Lookup(s.objects, k) != Lookup(t.objects, k) ==>
      && (k in s.objects ==> SourceLabel(s.objects[k]) == id)
      && (k in t.objects ==> SourceLabel(t.objects[k]) == id)
  }

  /** The worker is at its Delete call, the call takes effect, and the object now stored there is
      not a mirror of `id`. */
  ghost predicate DeletesForeign(id: string, inst: Instance, local: Store, n: nat, outcome: Outcome)
    requires n < |inst.workers|
  {
    var w := inst.workers[n];
    w.WillDelete? && outcome != Refused && w.key in local.objects && SourceLabel(local.objects[w.key]) != id
  }

  lemma WorkWritesOwnIff(id: string, inst: Instance, local: Store, n: nat, outcome: Outcome)
    requires n < |inst.workers| && StoreOk(local) && SnapshotsHold(id, inst, local)
    ensures WritesOnly(id, local, WorkStep(id, inst, local, n, outcome).1) <==>
              !DeletesForeign(id, inst, local, n, outcome)
  {
    WorkIsLocal(id, inst, local, n, outcome);
    var w, after := inst.workers[n], WorkStep(id, inst, local, n, outcome).1;
    if w.WillDelete? {
      assert DeletesForeign(id, inst, local, n, outcome) ==>
             Lookup(local.objects, w.key) != Lookup(after.objects, w.key);
    }
    forall k | Lookup(local.objects, k) != Lookup(after.objects, k) && !w.WillDelete?
      ensures (k in local.objects ==> SourceLabel(local.objects[k]) == id) &&
                (k in after.objects ==> SourceLabel(after.objects[k]) == id)
    {
      assert w.key == k;
    }
  }

  /** Everything that differs was, if present before, and is, if present after, labelled `id`. */
  ghost predicate TouchesOnly(id: string, s: map<Key, Object>, t: map<Key, Object>) {
    forall k :: !(k in s <==> k in t) || (k in s && k in t && s[k] != t[k]) ==>
      (k in s ==> Carries(s[k], id)) && (k in t ==> Carries(t[k], id))
  }

  lemma TouchesOnlyIff(id: string, s: Store, t: Store)
    requires id != ""
    ensures WritesOnly(id, s, t) <==> TouchesOnly(id, s.objects, t.objects)
  {
    forall o ensures SourceLabel(o) == id <==> Carries(o, id) { FieldsDecide(o, o, id); }
    forall k ensures Lookup(s.objects, k) != Lookup(t.objects, k) <==>
      !(k in s.objects <==> k in t.objects) || (k in s.objects && k in t.objects && s.objects[k] != t.objects[k])
    {
    }
  }

  /** In every reachable state, whatever other writers did and do, a worker step writes only
      objects of its own source ID, if and only if it is not a Delete that takes effect on an
      object put there by somebody else since the worker's Get. */
  lemma WritesOwnIffNotReplaced(world: World, steps: seq<Step>, id: string, n: nat, outcome: Outcome)
    requires Initial(world) && id != ""
    ensures var now := Run(world, steps);
            id in now.instances && n < |now.instances[id].workers| ==>
              var w, objects := now.instances[id].workers[n], now.local.objects;
              TouchesOnly(id, objects, Next(now, Work(id, n, outcome)).local.objects) <==>
              !(w.WillDelete? && outcome != Refused && w.key in objects && !Carries(objects[w.key], id))
  {
    InitialIsBase(world);
    RunKeepsBase(world, steps);
    var now := Run(world, steps);
    if id in now.instances && n < |now.instances[id].workers| {
      NextIsWork(now, id, n, outcome);
      WorkWritesOwnIff(id, now.instances[id], now.local, n, outcome);
      TouchesOnlyIff(id, now.local, Next(now, Work(id, n, outcome)).local);
      var w := now.instances[id].workers[n];
      if w.WillDelete? && w.key in now.local.objects {
        FieldsDecide(now.local.objects[w.key], now.local.objects[w.key], id);
      }
    }
  }

  lemma NextIsWork(world: World, id: string, n: nat, outcome: Outcome)
    requires id in world.instances && n < |world.instances[id].workers|
    ensures Next(world, Work(id, n, outcome)).local == WorkStep(id, world.instances[id], world.local, n, outcome).1
  {
  }

  lemma ActedKeepsOwning(inst: Instance, local: Store, step: Step)
    requires !step.External? && StoreOk(local) && SnapshotsHold(step.id, inst, local) && Exclusive(inst) &&
               DeletesOwn(step.id, inst, local)
    ensures var (inst', local') := Acted(inst, local, step);
            DeletesOwn(step.id, inst', local') && WritesOnly(step.id, local, local')
  {
    if step.Work? && step.worker < |inst.workers| {
      WorkWritesOwnIff(step.id, inst, local, step.worker, step.outcome);
      WorkKeepsDeletesOwn(step.id, inst, local, step.worker, step.outcome);
    }
  }

  lemma OthersKeepDeletesOwn(id: string, inst: Instance, other: string, s: Store, t: Store)
    requires DeletesOwn(id, inst, s) && WritesOnly(other, s, t) && other != id
    ensures DeletesOwn(id, inst, t)
  {
    forall k | k in s.objects && SourceLabel(s.objects[k]) == id ensures Lookup(t.objects, k) == Lookup(s.objects, k) {}
  }

  lemma NextKeepsOwning(world: World, step: Step)
    requires Owning(world) && KeepsMirrors(world, step)
    ensures Owning(Next(world, step))
    ensures !step.External? ==> WritesOnly(step.id, world.local, Next(world, step).local)
  {
    NextKeepsBase(world, step);
    if !step.External? && step.id in world.instances {
      NextIsActed(world, step);
      ActedKeepsOwning(world.instances[step.id], world.local, step);
      var after := Next(world, step);
      forall id | id in world.instances && id != step.id ensures DeletesOwn(id, after.instances[id], after.local) {
        OthersKeepDeletesOwn(id, world.instances[id], step.id, world.local, after.local);
      }
    }
  }

  lemma WorkKeepsDeletesOwn(id: string, inst: Instance, local: Store, n: nat, outcome: Outcome)
    requires n < |inst.workers| && StoreOk(local) && Exclusive(inst) && DeletesOwn(id, inst, local)
    ensures var (inst', local') := WorkStep(id, inst, local, n, outcome); DeletesOwn(id, inst', local')
  {
    WorkIsLocal(id, inst, local, n, outcome);
    var (inst', local') := WorkStep(id, inst, local, n, outcome);
    forall m | 0 <= m < |inst'.workers| && inst'.workers[m].WillDelete?
      ensures inst'.workers[m].key in local'.objects && SourceLabel(local'.objects[inst'.workers[m].key]) == id
    {
      if m != n {
        assert Holding(inst.workers[n]) != Some(inst.workers[m].key);
        assert Lookup(local'.objects, inst.workers[m].key) == Lookup(local.objects, inst.workers[m].key);
      }
    }
  }

  lemma {:induction false} RunKeepsOwning(world: World, steps: seq<Step>)
    requires Owning(world) && AllKeepMirrors(world, steps)
    ensures Owning(Run(world, steps))
    decreases |steps|
  {
    if steps != [] {
      NextKeepsOwning(world, steps[0]);
      RunKeepsOwning(Next(world, steps[0]), steps[1..]);
    }
  }

  lemma InitialIsOwning(world: World)
    requires Initial(world)
    ensures Owning(world)
  {
    InitialIsBase(world);
    forall id, n | id in world.instances && 0 <= n < |world.instances[id].workers|
      ensures world.instances[id].workers[n].Idle?
    {
      assert world.instances[id].workers[n] in world.instances[id].workers;
    }
  }

  /** Over every run in which other writers leave mirrors in place, every worker step of an
      instance updates, deletes or creates only objects that carry that instance's source ID. */
  lemma OnlyOwnObjectsAreWritten(world: World, steps: seq<Step>, id: string, n: nat, outcome: Outcome)
    requires Initial(world) && AllKeepMirrors(world, steps) && id != ""
    ensures var now := Run(world, steps);
            TouchesOnly(id, now.local.objects, Next(now, Work(id, n, outcome)).local.objects)
  {
    InitialIsOwning(world);
    RunKeepsOwning(world, steps);
    NextKeepsOwning(Run(world, steps), Work(id, n, outcome));
    TouchesOnlyIff(id, Run(world, steps).local, Next(Run(world, steps), Work(id, n, outcome)).local);
  }
}

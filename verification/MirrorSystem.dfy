/** The downstream mirror as a step system, internal/controller/downstream_controller.go.

    Any number of instances, each with its own source ID, upstream cluster, informer cache,
    queue and workers, share one local API server.  Steps interleave at single API calls. */
module MirrorSystem {
  import opened Wrappers
  import opened MirrorObjects

  /** A notification the informer has not yet handed to the event handler. */
  datatype Event =
    | Added(key: Key)
    | Updated(key: Key, before: Object, after: Object)
    | Deleted(key: Key)

  /** Where a worker stands inside `runWorker` and `reconcileKey`. */
  datatype Worker =
    | Idle
    | Picked(key: Key)
    | HaveSource(key: Key, source: Object)
    | NamespaceReady(key: Key, source: Object)
    | WillCreate(key: Key, source: Object)
    | WillUpdate(key: Key, source: Object, current: Object)
    | Absent(key: Key)
    | WillDelete(key: Key)
    | Finished(key: Key, failed: bool)
    | Retrying(key: Key)

  datatype Instance = Instance(
    target: string,
    kinds: set<string>,
    upstream: map<Key, Object>,
    cache: map<Key, Object>,
    events: seq<Event>,
    queue: Queue,
    delayed: set<Key>,
    unswept: set<Key>,
    workers: seq<Worker>)

  datatype World = World(local: Store, instances: map<string, Instance>)

  datatype Step =
    | UpstreamWrite(id: string, key: Key, put: Option<Object>)
    | Watch(id: string, key: Key)
    | Handle(id: string)
    | Sweep(id: string, key: Key)
    | DelayOver(id: string, key: Key)
    | Work(id: string, worker: nat, outcome: Outcome)
    | External(key: Key, put: Option<Object>)

  predicate InNamespace(inst: Instance, k: Key) {
    inst.target == "" || k.namespace == inst.target
  }

  predicate InScope(inst: Instance, k: Key) {
    InNamespace(inst, k) && k.kind in inst.kinds
  }

  function Put(m: map<Key, Object>, k: Key, o: Option<Object>): map<Key, Object> {
    match o
    case Some(v) => m[k := v]
    case None => m - {k}
  }

  function Lookup(m: map<Key, Object>, k: Key): Option<Object> {
    if k in m then Some(m[k]) else None
  }

  // ---- Informer and event handler ----

  /** The informer's cache catches up on one key and notes the change. */
  function WatchKey(inst: Instance, k: Key): Instance {
    var event :=
      match (Lookup(inst.cache, k), Lookup(inst.upstream, k))
      case (None, Some(_)) => [Added(k)]
      case (Some(o), Some(n)) => [Updated(k, o, n)]
      case (Some(_), None) => [Deleted(k)]
      case (None, None) => [];
    inst.(cache := Put(inst.cache, k, Lookup(inst.upstream, k)), events := inst.events + event)
  }

  predicate Suppressed(e: Event) {
    e.Updated? && SourceEqual(e.before, e.after)
  }

  function Enqueue(inst: Instance, k: Key): Instance {
    if InNamespace(inst, k) then inst.(queue := inst.queue.Add(k)) else inst
  }

  function HandleEvent(inst: Instance): Instance {
    if inst.events == [] then inst
    else
      var e, rest := inst.events[0], inst.(events := inst.events[1..]);
      if Suppressed(e) then rest else Enqueue(rest, e.key)
  }

  /** The startup sweep reaches a local mirror. */
  function SweepKey(inst: Instance, k: Key): Instance {
    if k in inst.unswept then Enqueue(inst.(unswept := inst.unswept - {k}), k) else inst
  }

  function DelayOverKey(inst: Instance, k: Key): Instance {
    if k in inst.delayed then inst.(delayed := inst.delayed - {k}, queue := inst.queue.Add(k)) else inst
  }

  // ---- One worker action ----

  /** The worker after a call that needs an answer. */
  function Reached(k: Key, outcome: Outcome, next: Worker): Worker {
    if outcome == Answered then next else Finished(k, true)
  }

  function ReconcileStep(id: string, inst: Instance, local: Store, w: Worker, outcome: Outcome): (Worker, Store) {
    match w
    case Picked(k) =>
      (if !InNamespace(inst, k) then Finished(k, false)
       else if k.kind !in inst.kinds then Finished(k, true)
       else Reached(k, outcome, if k in inst.cache then HaveSource(k, inst.cache[k]) else Absent(k)), local)
    case HaveSource(k, source) =>
      (if k.namespace == "" then Finished(k, true) else Reached(k, outcome, NamespaceReady(k, source)), local)
    case NamespaceReady(k, source) =>
      (Reached(k, outcome, AfterGet(id, k, source, Lookup(local.objects, k))), local)
    case WillCreate(k, source) =>
      Write(k, outcome, local, Create(local, k, Desired(source, id)))
    case WillUpdate(k, source, current) =>
      Write(k, outcome, local, Update(local, k, CarryLocal(Desired(source, id), current)))
    case Absent(k) =>
      (Reached(k, outcome,
         if k in local.objects && SourceLabel(local.objects[k]) == id then WillDelete(k) else Finished(k, false)),
       local)
    case WillDelete(k) =>
      var (reply, after) := Delete(local, k);
      Write(k, outcome, local, (if reply == NotFound then Reply.Done else reply, after))
    case _ => (w, local)
  }

  /** What `upsert` does with the object it read. */
  function AfterGet(id: string, k: Key, source: Object, found: Option<Object>): Worker {
    match found
    case None => WillCreate(k, source)
    case Some(current) =>
      if SourceLabel(current) != id then Finished(k, true)
      else if current.deleting then Finished(k, false)
      else if current == CarryLocal(Desired(source, id), current) then Finished(k, false)
      else WillUpdate(k, source, current)
  }

  function Write(k: Key, outcome: Outcome, before: Store, result: (Reply, Store)): (Worker, Store) {
    match outcome
    case Answered => (Finished(k, result.0 != Reply.Done), result.1)
    case Refused => (Finished(k, true), before)
    case AnswerLost => (Finished(k, true), result.1)
  }

  function WorkStep(id: string, inst: Instance, local: Store, n: nat, outcome: Outcome): (Instance, Store)
    requires n < |inst.workers|
  {
    match inst.workers[n]
    case Idle =>
      if inst.unswept != {} || inst.queue.order == [] then (inst, local)
      else (inst.(queue := inst.queue.Get(), workers := inst.workers[n := Picked(inst.queue.order[0])]), local)
    case Finished(k, failed) =>
      (inst.(queue := inst.queue.Finish(k), workers := inst.workers[n := if failed then Retrying(k) else Idle]), local)
    case Retrying(k) =>
      (inst.(delayed := inst.delayed + {k}, workers := inst.workers[n := Idle]), local)
    case w =>
      var (next, after) := ReconcileStep(id, inst, local, w, outcome);
      (inst.(workers := inst.workers[n := next]), after)
  }

  // ---- Runs ----

  function SetInstance(world: World, id: string, inst: Instance): World {
    world.(instances := world.instances[id := inst])
  }

  /** A step that is not enabled changes nothing. */
  function Next(world: World, step: Step): World {
    match step
    case External(k, o) =>
      var stored := match o case Some(v) => Some(v.(version := world.local.clock)) case None => None;
      world.(local := Store(Put(world.local.objects, k, stored), world.local.clock + 1))
    case _ =>
      if step.id !in world.instances then world
      else
        var inst := world.instances[step.id];
        match step
        case UpstreamWrite(id, k, o) => SetInstance(world, id, inst.(upstream := Put(inst.upstream, k, o)))
        case Watch(id, k) => SetInstance(world, id, WatchKey(inst, k))
        case Handle(id) => SetInstance(world, id, HandleEvent(inst))
        case Sweep(id, k) => SetInstance(world, id, SweepKey(inst, k))
        case DelayOver(id, k) => SetInstance(world, id, DelayOverKey(inst, k))
        case Work(id, n, outcome) =>
          if n < |inst.workers| then
            var (inst', local') := WorkStep(id, inst, world.local, n, outcome);
            SetInstance(world.(local := local'), id, inst')
          else world
  }

  function Run(world: World, steps: seq<Step>): World
    decreases |steps|
  {
    if steps == [] then world else Run(Next(world, steps[0]), steps[1..])
  }

  /** The key a worker holds in the queue's processing set. */
  function Holding(w: Worker): Option<Key> {
    if w.Idle? || w.Retrying? then None else Some(w.key)
  }

  /** An instance right after its informers have synced: every cached object has its initial
      notification, the sweep has all local mirrors of this source ahead of it, and no worker runs. */
  ghost predicate Starting(id: string, inst: Instance, local: Store) {
    && inst.queue == EMPTY_QUEUE && inst.delayed == {}
    && (forall w :: w in inst.workers ==> w.Idle?)
    && (forall k :: k in inst.cache ==> Added(k) in inst.events)
    && (forall k :: k in local.objects && InScope(inst, k) && SourceLabel(local.objects[k]) == id ==> k in inst.unswept)
  }

  ghost predicate Initial(world: World) {
    && (forall k :: k in world.local.objects ==> world.local.objects[k].version < world.local.clock)
    && (forall id :: id in world.instances ==> Starting(id, world.instances[id], world.local))
  }
}

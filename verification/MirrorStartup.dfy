/** The paged startup sweep, and what the mirror does not survive. */
module MirrorStartup {
  import opened Wrappers
  import opened MirrorObjects
  import opened MirrorSystem
  import opened MirrorOwnership
  import opened MirrorConvergence

  /** One answer to a List call; the continue token of a page is the index of the next one. */
  datatype Page = Items(keys: seq<Key>) | ListError

  ghost function KeySet(keys: seq<Key>): set<Key> {
    set k | k in keys
  }

  /** The keys in the first `n` pages. */
  ghost function Listed(pages: seq<Page>, n: nat): set<Key>
    requires n <= |pages|
  {
    set i, k | 0 <= i < n && pages[i].Items? && k in pages[i].keys :: k
  }

  ghost function ListedOf(listing: map<string, seq<Page>>, kinds: set<string>): set<Key>
    requires kinds <= listing.Keys
  {
    set kind, k | kind in kinds && k in Listed(listing[kind], |listing[kind]|) :: k
  }

  /** `next` is `inst` with the keys of `more` that pass the namespace filter queued. */
  ghost predicate QueuedMore(inst: Instance, next: Instance, more: set<Key>) {
    && next == inst.(queue := next.queue)
    && next.queue.dirty == inst.queue.dirty + (set k | k in more && (inst.target == "" || k.namespace == inst.target))
    && next.queue.processing == inst.queue.processing
    && (inst.queue.Valid() ==> next.queue.Valid())
  }

  lemma EnqueueQueuesMore(start: Instance, inst: Instance, done: set<Key>, k: Key)
    requires QueuedMore(start, inst, done)
    ensures QueuedMore(start, Enqueue(inst, k), done + {k})
  {
    if inst.queue.Valid() { QueueStaysValid(inst.queue, k); }
  }

  /** Queues the items of one page. */
  method EnqueuePage(inst: Instance, keys: seq<Key>) returns (next: Instance)
    ensures QueuedMore(inst, next, KeySet(keys))
  {
    next := inst;
    for i := 0 to |keys|
      invariant QueuedMore(inst, next, KeySet(keys[..i]))
    {
      EnqueueQueuesMore(inst, next, KeySet(keys[..i]), keys[i]);
      assert KeySet(keys[..i + 1]) == KeySet(keys[..i]) + {keys[i]} by {
        assert keys[..i + 1] == keys[..i] + [keys[i]];
      }
      next := Enqueue(next, keys[i]);
    }
    assert keys[..|keys|] == keys;
  }

  lemma QueuedTwice(a: Instance, b: Instance, c: Instance, x: set<Key>, y: set<Key>)
    requires QueuedMore(a, b, x) && QueuedMore(b, c, y)
    ensures QueuedMore(a, c, x + y)
  {
  }

  /** Follows continue tokens through all pages of one kind. */
  method SweepKind(inst: Instance, pages: seq<Page>) returns (next: Instance, ok: bool)
    requires pages != []
    ensures ok <==> forall p :: p in pages ==> p.Items?
    ensures ok ==> QueuedMore(inst, next, Listed(pages, |pages|))
  {
    next, ok := inst, true;
    var token := 0;
    while true
      invariant 0 <= token < |pages| && ok
      invariant forall i :: 0 <= i < token ==> pages[i].Items?
      invariant QueuedMore(inst, next, Listed(pages, token))
      decreases |pages| - token
    {
      if pages[token].ListError? {
        assert pages[token] in pages;
        return next, false;
      }
      ghost var before := next;
      next := EnqueuePage(next, pages[token].keys);
      QueuedTwice(inst, before, next, Listed(pages, token), KeySet(pages[token].keys));
      assert Listed(pages, token + 1) == Listed(pages, token) + KeySet(pages[token].keys);
      token := token + 1;
      if token == |pages| {
        return next, true;
      }
    }
  }

  /** Queues every local mirror of this source.  Kinds are visited in no fixed order. */
  method EnqueueExistingMirrors(inst: Instance, listing: map<string, seq<Page>>) returns (next: Instance, ok: bool)
    requires inst.kinds <= listing.Keys && forall kind :: kind in inst.kinds ==> listing[kind] != []
    ensures ok <==> forall kind, p :: kind in inst.kinds && p in listing[kind] ==> p.Items?
    ensures ok ==> QueuedMore(inst, next, ListedOf(listing, inst.kinds))
  {
    next, ok := inst, true;
    var left := inst.kinds;
    while left != {}
      invariant left <= inst.kinds && ok
      invariant forall kind, p :: kind in inst.kinds - left && p in listing[kind] ==> p.Items?
      invariant QueuedMore(inst, next, ListedOf(listing, inst.kinds - left))
      decreases left
    {
      var kind :| kind in left;
      ghost var before := next;
      next, ok := SweepKind(next, listing[kind]);
      if !ok {
        return;
      }
      QueuedTwice(inst, before, next, ListedOf(listing, inst.kinds - left), Listed(listing[kind], |listing[kind]|));
      assert ListedOf(listing, inst.kinds - (left - {kind})) ==
             ListedOf(listing, inst.kinds - left) + Listed(listing[kind], |listing[kind]|);
      left := left - {kind};
    }
    assert inst.kinds - left == inst.kinds;
  }

  /** A complete sweep leaves nothing unswept: with every remaining mirror listed, the
      convergence invariant holds without the sweep's help from then on. */
  lemma SweepHandsOver(id: string, inst: Instance, next: Instance, local: Store, listed: set<Key>, lost: set<Key>)
    requires Converging(id, inst, local, lost) && QueuedMore(inst, next, listed)
    requires forall k :: k in inst.unswept && InScope(inst, k) ==> k in listed
    ensures Converging(id, next.(unswept := {}), local, lost)
  {
    var after := next.(unswept := {});
    forall k | Pending(inst, k) ensures Pending(after, k) {}
    forall k | AtWorker(inst, k) ensures AtWorker(after, k) {}
    RemembersKeepsConverging(id, inst, after, local, lost);
  }

  /** Startup as a whole: synced informers plus a successful sweep over a listing that has every
      local mirror in scope establish the invariant, including for objects deleted upstream
      while the instance was down. */
  lemma StartupConverges(id: string, inst: Instance, next: Instance, local: Store, listing: map<string, seq<Page>>)
    requires Starting(id, inst, local) && inst.kinds <= listing.Keys
    requires forall k :: k in local.objects && InScope(inst, k) && SourceLabel(local.objects[k]) == id ==>
               k in ListedOf(listing, inst.kinds)
    requires QueuedMore(inst, next, ListedOf(listing, inst.kinds))
    ensures Converging(id, next.(unswept := {}), local, {})
  {
    var exact := inst.(unswept := set k | k in local.objects && InScope(inst, k) &&
      SourceLabel(local.objects[k]) == id);
    StartingConverges(id, exact, local);
    SweepHandsOver(id, exact, next.(unswept := exact.unswept), local, ListedOf(listing, inst.kinds), {});
  }

  // ---- Limits ----

  lemma {:induction false} RunOneMore(world: World, steps: seq<Step>, step: Step)
    ensures Run(world, steps + [step]) == Next(Run(world, steps), step)
    ensures AllCooperative("s", world, steps) && Cooperative("s", Run(world, steps), step) ==>
              AllCooperative("s", world, steps + [step])
    decreases |steps|
  {
    if steps != [] {
      assert (steps + [step])[1..] == steps[1..] + [step];
      RunOneMore(Next(world, steps[0]), steps[1..], step);
    }
  }

  /** The run `steps` leads a lone instance to `inst` with the store as it was, without other writers. */
  ghost predicate Leads(world: World, steps: seq<Step>, inst: Instance) {
    && Run(world, steps) == World(world.local, map["s" := inst])
    && AllCooperative("s", world, steps) && forall s :: s in steps ==> !s.External?
  }

  lemma OneStepFurther(world: World, steps: seq<Step>, inst: Instance, step: Step, next: Instance)
    requires Leads(world, steps, inst) && !step.External? && step.id == "s"
    requires Acted(inst, world.local, step) == (next, world.local)
    ensures Leads(world, steps + [step], next)
  {
    var now := Run(world, steps);
    NextIsActed(now, step);
    RunOneMore(world, steps, step);
    assert now.instances["s" := next] == map["s" := next];
  }

  const ONE := Key("Zone", "ns", "z")

  /** A lone instance "s" with one worker, at the moment its informers have synced. */
  function Lone(wanted: map<Key, Object>, events: seq<Event>): Instance {
    Instance("", {"Zone"}, wanted, wanted, events, EMPTY_QUEUE, {}, {ONE}, [Idle])
  }

  function WithWorker(inst: Instance, q: Queue, w: Worker): Instance {
    inst.(unswept := {}, events := [], queue := q, workers := [w])
  }

  const WAITING := Queue([ONE], {ONE}, {})
  const HELD := Queue([], {}, {ONE})
  const ACT := Work("s", 0, Answered)

  lemma LoneIsInitial(wanted: map<Key, Object>, events: seq<Event>, local: Store) returns (world: World)
    requires forall k :: k in local.objects ==> k == ONE && local.objects[k].version < local.clock
    requires forall k :: k in wanted ==> Added(k) in events
    ensures world == World(local, map["s" := Lone(wanted, events)]) && Initial(world) &&
              Leads(world, [], Lone(wanted, events))
  {
    world := World(local, map["s" := Lone(wanted, events)]);
  }

  lemma LoneSweeps(inst: Instance)
    requires inst.target == "" && inst.queue == EMPTY_QUEUE && inst.unswept == {ONE}
    ensures SweepKey(inst, ONE) == inst.(unswept := {}, queue := WAITING)
  {
  }

  lemma LoneStarts(world: World, steps: seq<Step>, inst: Instance)
    requires Leads(world, steps, inst)
    requires inst.unswept == {} && inst.events == [] && inst.queue == WAITING && inst.workers == [Idle]
    ensures Leads(world, steps + [ACT], WithWorker(inst, HELD, Picked(ONE)))
  {
    assert WAITING.Get() == HELD;
    assert inst.workers[0 := Picked(ONE)] == [Picked(ONE)];
    OneStepFurther(world, steps, inst, ACT, WithWorker(inst, HELD, Picked(ONE)));
  }

  lemma LoneReconciles(world: World, steps: seq<Step>, inst: Instance, w: Worker, next: Worker)
    requires var i := WithWorker(inst, HELD, w);
             Leads(world, steps, i) && Holding(w).Some? && !w.Finished? &&
               ReconcileStep("s", i, world.local, w, Answered) == (next, world.local)
    ensures Leads(world, steps + [ACT], WithWorker(inst, HELD, next))
  {
    var i := WithWorker(inst, HELD, w);
    assert i.workers[0 := next] == [next];
    OneStepFurther(world, steps, i, ACT, WithWorker(inst, HELD, next));
  }

  lemma LoneFinishes(world: World, steps: seq<Step>, inst: Instance)
    requires Leads(world, steps, WithWorker(inst, HELD, Finished(ONE, false)))
    ensures Leads(world, steps + [ACT], WithWorker(inst, EMPTY_QUEUE, Idle))
  {
    var i := WithWorker(inst, HELD, Finished(ONE, false));
    assert HELD.Finish(ONE) == EMPTY_QUEUE;
    assert i.workers[0 := Idle] == [Idle];
    OneStepFurther(world, steps, i, ACT, WithWorker(inst, EMPTY_QUEUE, Idle));
  }

  lemma LoneHasSource(mirror: Object, source: Object) returns (world: World, steps: seq<Step>)
    ensures Initial(world) && "s" in world.instances && world.local.objects == map[ONE := mirror]
    ensures Leads(world, steps, WithWorker(Lone(map[ONE := source], [Added(ONE)]), HELD, HaveSource(ONE, source)))
  {
    var inst := Lone(map[ONE := source], [Added(ONE)]);
    world := LoneIsInitial(map[ONE := source], [Added(ONE)], Store(map[ONE := mirror], mirror.version + 1));
    LoneSweeps(inst);
    var swept := inst.(unswept := {}, queue := WAITING);
    OneStepFurther(world, [], inst, Sweep("s", ONE), swept);
    steps := [] + [Sweep("s", ONE)];
    assert HandleEvent(swept) == WithWorker(inst, WAITING, Idle);
    OneStepFurther(world, steps, swept, Handle("s"), WithWorker(inst, WAITING, Idle));
    steps := steps + [Handle("s")];
    LoneStarts(world, steps, WithWorker(inst, WAITING, Idle));
    steps := steps + [ACT];
    LoneReconciles(world, steps, inst, Picked(ONE), HaveSource(ONE, source));
    steps := steps + [ACT];
  }

  /** The run in which a mirror under deletion is skipped without a retry. */
  lemma LoneSkips(mirror: Object, source: Object) returns (world: World, steps: seq<Step>)
    requires SourceLabel(mirror) == "s" && mirror.deleting
    ensures Initial(world) && "s" in world.instances && world.local.objects == map[ONE := mirror]
    ensures Leads(world, steps, WithWorker(Lone(map[ONE := source], [Added(ONE)]), EMPTY_QUEUE, Idle))
  {
    world, steps := LoneHasSource(mirror, source);
    var inst := Lone(map[ONE := source], [Added(ONE)]);
    LoneReconciles(world, steps, inst, HaveSource(ONE, source), NamespaceReady(ONE, source));
    steps := steps + [ACT];
    LoneReconciles(world, steps, inst, NamespaceReady(ONE, source), Finished(ONE, false));
    steps := steps + [ACT];
    LoneFinishes(world, steps, inst);
    steps := steps + [ACT];
  }

  /** A mirror that is being deleted but held by a finalizer is skipped without a retry: for
      every such mirror with stale content the system can become idle with it in place, without any
      other writer acting. */
  lemma TerminatingMirrorIsForgotten(mirror: Object, source: Object) returns (world: World, steps: seq<Step>)
    requires SourceLabel(mirror) == "s" && mirror.deleting && ContentOf(mirror) != ContentOf(Desired(source, "s"))
    ensures Initial(world) && "s" in world.instances && AllCooperative("s", world, steps) &&
              (forall s :: s in steps ==> !s.External?)
    ensures var now := Run(world, steps);
            && "s" in now.instances && Quiescent(now.instances["s"]) && InScope(now.instances["s"], ONE)
            && !InSync("s", now.instances["s"], now.local, ONE)
  {
    world, steps := LoneSkips(mirror, source);
  }

  /** When the deletion of a mirror completes, nothing brings it back: for every mirror under deletion,
      in sync or not, the system can become idle with the object upstream and no mirror of it. */
  lemma ReleasedMirrorIsForgotten(mirror: Object, source: Object) returns (world: World, steps: seq<Step>)
    requires SourceLabel(mirror) == "s" && mirror.deleting
    ensures Initial(world) && "s" in world.instances && AllCooperative("s", world, steps)
    ensures var now := Run(world, steps);
            && "s" in now.instances && Quiescent(now.instances["s"]) && InScope(now.instances["s"], ONE)
            && ONE in now.instances["s"].upstream && ONE !in now.local.objects
  {
    world, steps := LoneSkips(mirror, source);
    var before, gone := Run(world, steps), External(ONE, None);
    assert Next(before, gone).instances == before.instances;
    assert Next(before, gone).local.objects == map[ONE := mirror] - {ONE} == map[];
    RunOneMore(world, steps, gone);
    steps := steps + [gone];
  }

  lemma LoneWillDelete(mirror: Object) returns (world: World, steps: seq<Step>)
    requires SourceLabel(mirror) == "s"
    ensures Initial(world) && Leads(world, steps, WithWorker(Lone(map[], []), HELD, WillDelete(ONE)))
  {
    var inst := Lone(map[], []);
    world := LoneIsInitial(map[], [], Store(map[ONE := mirror], mirror.version + 1));
    LoneSweeps(inst);
    OneStepFurther(world, [], inst, Sweep("s", ONE), WithWorker(inst, WAITING, Idle));
    steps := [] + [Sweep("s", ONE)];
    LoneStarts(world, steps, WithWorker(inst, WAITING, Idle));
    steps := steps + [ACT];
    LoneReconciles(world, steps, inst, Picked(ONE), Absent(ONE));
    steps := steps + [ACT];
    LoneReconciles(world, steps, inst, Absent(ONE), WillDelete(ONE));
    steps := steps + [ACT];
  }

  /** Delete has no precondition: if another writer replaces the mirror between a worker's Get
      and its Delete, an object of somebody else is deleted. */
  lemma ReplacedMirrorIsDeletedAnyway(mirror: Object, foreign: Object) returns (world: World, steps: seq<Step>)
    requires SourceLabel(mirror) == "s" && SourceLabel(foreign) != "s" && foreign.finalizers == []
    ensures Initial(world)
    ensures var before := Run(world, steps); var after := Next(before, Work("s", 0, Answered));
            && ONE in before.local.objects && SourceLabel(before.local.objects[ONE]) != "s"
            && ONE !in after.local.objects
  {
    world, steps := LoneWillDelete(mirror);
    var gone, back := External(ONE, None), External(ONE, Some(foreign));
    RunOneMore(world, steps, gone);
    RunOneMore(world, steps + [gone], back);
    steps := steps + [gone] + [back];
    NextIsActed(Run(world, steps), ACT);
  }
}

/** One pass of the downstream reconciler in the form of its code, the worker steps it stands
    for, and what a pass without interruption achieves. */
module MirrorReconciler {
  import opened Wrappers
  import opened MirrorObjects
  import opened MirrorSystem
  import opened MirrorConvergence

  /** How the calls of one pass end. */
  datatype Luck = Luck(source: Outcome, getNamespace: Outcome, createNamespace: Outcome, get: Outcome, write: Outcome)

  /** Whether the pass gets past `ensureNamespace`, given the namespaces it remembers and those
      that exist. */
  predicate NamespaceOk(known: set<string>, existing: set<string>, namespace: string, luck: Luck) {
    namespace != "" &&
    (namespace in known || (luck.getNamespace == Answered &&
      (namespace in existing || luck.createNamespace == Answered)))
  }

  /** Every call is answered. */
  predicate Smooth(luck: Luck) {
    luck == Luck(Answered, Answered, Answered, Answered, Answered)
  }

  /** What a pass with every call answered makes of the stored objects, and whether it succeeds, in
      terms of the fields of the objects involved. */
  ghost predicate Served(id: string, inst: Instance, before: map<Key, Object>, after: map<Key, Object>, k: Key,
                         ok: bool) {
    && (forall j :: j != k ==> (j in after <==> j in before) && (j in before ==> after[j] == before[j]))
    && if inst.target != "" && k.namespace != inst.target then ok && after == before
       else if k.kind !in inst.kinds then !ok && after == before
       else if k !in inst.cache then ok && Unmirrored(id, before, after, k)
       else if k.namespace == "" then !ok && after == before
       else if k in before && !Carries(before[k], id) then !ok && after == before
       else if k in before && before[k].deleting then ok && after == before
       else
         && ok && k in after && Mirrors(after[k], inst.cache[k], id)
         && !after[k].deleting && LocalPart(before, after, k)
  }

  /** A mirror is gone, or marked if finalizers hold it; anything else is left alone. */
  ghost predicate Unmirrored(id: string, before: map<Key, Object>, after: map<Key, Object>, k: Key) {
    if k in before && Carries(before[k], id) then
      if before[k].finalizers == [] then k !in after
      else k in after && after[k] == before[k].(deleting := true, version := after[k].version)
    else after == before
  }

  /** A new mirror starts without status, owners or finalizers; an existing one keeps its own, and is
      not written at all if nothing differs. */
  ghost predicate LocalPart(before: map<Key, Object>, after: map<Key, Object>, k: Key)
    requires k in after
  {
    var o := after[k];
    if k !in before then o.status == "" && o.owners == [] && o.finalizers == []
    else
      var b := before[k];
      && o.status == b.status && o.owners == b.owners && o.finalizers == b.finalizers
      && o.uid == b.uid && o.generation == b.generation && o.created == b.created
      && (b.spec == o.spec && b.annotations == o.annotations && b.labels == o.labels && b.managedFields == "" ==>
         o == b)
  }

  function OutcomeFor(w: Worker, luck: Luck, ready: bool): Outcome {
    match w
    case Picked(_) => luck.source
    case HaveSource(_, _) => if ready then Answered else Refused
    case NamespaceReady(_, _) => luck.get
    case Absent(_) => luck.get
    case _ => luck.write
  }

  function StepsLeft(w: Worker): nat {
    match w
    case Picked(_) => 4
    case HaveSource(_, _) => 3
    case NamespaceReady(_, _) => 2
    case Absent(_) => 2
    case WillCreate(_, _) => 1
    case WillUpdate(_, _, _) => 1
    case WillDelete(_) => 1
    case _ => 0
  }

  /** The worker steps from `w` on, with nobody else acting. */
  function Completed(id: string, inst: Instance, local: Store, w: Worker, luck: Luck, ready: bool): (Worker, Store)
    decreases StepsLeft(w)
  {
    if StepsLeft(w) == 0 then (w, local)
    else
      var (next, after) := ReconcileStep(id, inst, local, w, OutcomeFor(w, luck, ready));
      Completed(id, inst, after, next, luck, ready)
  }

  lemma OneStep(id: string, inst: Instance, local: Store, w: Worker, luck: Luck, ready: bool)
    requires StepsLeft(w) != 0
    ensures var (next, after) := ReconcileStep(id, inst, local, w, OutcomeFor(w, luck, ready));
            && Completed(id, inst, local, w, luck, ready) == Completed(id, inst, after, next, luck, ready)
            && (StepsLeft(next) == 0 ==> Completed(id, inst, local, w, luck, ready) == (next, after))
  {
  }

  /** The worker steps of `upsert`: a Get, then at most one write. */
  lemma UpsertSteps(id: string, inst: Instance, local: Store, k: Key, source: Object, luck: Luck, ready: bool)
    ensures Completed(id, inst, local, NamespaceReady(k, source), luck, ready) ==
            var next := Reached(k, luck.get, AfterGet(id, k, source, Lookup(local.objects, k)));
            if next.Finished? then (next, local) else ReconcileStep(id, inst, local, next, luck.write)
  {
    OneStep(id, inst, local, NamespaceReady(k, source), luck, ready);
    var next := Reached(k, luck.get, AfterGet(id, k, source, Lookup(local.objects, k)));
    if !next.Finished? { OneStep(id, inst, local, next, luck, ready); }
  }

  /** The worker steps of `deleteMirror`: likewise. */
  lemma DeleteSteps(id: string, inst: Instance, local: Store, k: Key, luck: Luck, ready: bool)
    ensures Completed(id, inst, local, Absent(k), luck, ready) ==
            if luck.get != Answered then (Finished(k, true), local)
            else if k in local.objects && SourceLabel(local.objects[k]) == id
            then ReconcileStep(id, inst, local, WillDelete(k), luck.write)
            else (Finished(k, false), local)
  {
    OneStep(id, inst, local, Absent(k), luck, ready);
    OneStep(id, inst, local, WillDelete(k), luck, ready);
  }

  /** The worker steps before them. */
  lemma PassSteps(id: string, inst: Instance, local: Store, k: Key, luck: Luck, ready: bool)
    requires InScope(inst, k)
    ensures Completed(id, inst, local, Picked(k), luck, ready) ==
            if luck.source != Answered then (Finished(k, true), local)
            else if k !in inst.cache then Completed(id, inst, local, Absent(k), luck, ready)
            else if k.namespace == "" || !ready then (Finished(k, true), local)
            else Completed(id, inst, local, NamespaceReady(k, inst.cache[k]), luck, ready)
  {
    OneStep(id, inst, local, Picked(k), luck, ready);
    if k in inst.cache { OneStep(id, inst, local, HaveSource(k, inst.cache[k]), luck, ready); }
  }

  class DownstreamReconciler {
    const id: string
    const inst: Instance
    var local: Store
    var namespaces: set<string>
    var existing: set<string>

    constructor (id: string, inst: Instance, local: Store, existing: set<string>)
      ensures this.id == id && this.inst == inst && this.local == local && namespaces == {} && this.existing == existing
    {
      this.id, this.inst, this.local, namespaces, this.existing := id, inst, local, {}, existing;
    }

    /** Remembers a namespace once it is known to exist, and creates it if need be. */
    method EnsureNamespace(namespace: string, luck: Luck) returns (ok: bool)
      modifies this`namespaces, this`existing
      ensures ok <==> NamespaceOk(old(namespaces), old(existing), namespace, luck)
      ensures namespaces == if ok then old(namespaces) + {namespace} else old(namespaces)
      ensures old(existing) <= existing <= old(existing) + {namespace}
      ensures old(namespaces) <= old(existing) ==> namespaces <= existing && (ok ==> namespace in existing)
      ensures Smooth(luck) ==> (ok <==> namespace != "")
    {
      if namespace == "" {
        return false;
      }
      if namespace in namespaces {
        return true;
      }
      if luck.getNamespace != Answered {
        return false;
      }
      if namespace in existing {
        namespaces := namespaces + {namespace};
        return true;
      }
      if luck.createNamespace != Refused {
        existing := existing + {namespace};
      }
      if luck.createNamespace != Answered {
        return false;
      }
      namespaces := namespaces + {namespace};
      return true;
    }

    /** Applies the effect of a write unless it was refused; `ok` if it was carried out and answered. */
    method Call(outcome: Outcome, result: (Reply, Store)) returns (ok: bool)
      modifies this`local
      ensures local == if outcome == Refused then old(local) else result.1
      ensures ok <==> outcome == Answered && result.0 == Reply.Done
    {
      if outcome == Refused {
        return false;
      }
      local := result.1;
      return outcome == Answered && result.0 == Reply.Done;
    }

    method Upsert(k: Key, source: Object, luck: Luck, ghost ready: bool) returns (ok: bool)
      modifies this`local
      ensures Completed(id, inst, old(local), NamespaceReady(k, source), luck, ready) == (Finished(k, !ok), local)
    {
      UpsertSteps(id, inst, local, k, source, luck, ready);
      var desired := SetEmptyStatus(ClearRemoteMetadata(source));
      desired := desired.(labels := desired.labels[MANAGED_LABEL := id]);
      if luck.get != Answered {
        return false;
      }
      if k !in local.objects {
        ok := Call(luck.write, Create(local, k, desired));
        return;
      }
      var current := local.objects[k];
      if SourceLabel(current) != id {
        return false;
      }
      if current.deleting {
        return true;
      }
      desired := desired.(version := current.version, uid := current.uid, generation := current.generation,
                          created := current.created, owners := current.owners, finalizers := current.finalizers);
      desired := desired.(status := current.status);
      if current == desired {
        return true;
      }
      ok := Call(luck.write, Update(local, k, desired));
    }

    method DeleteMirror(k: Key, luck: Luck, ghost ready: bool) returns (ok: bool)
      modifies this`local
      ensures Completed(id, inst, old(local), Absent(k), luck, ready) == (Finished(k, !ok), local)
    {
      DeleteSteps(id, inst, local, k, luck, ready);
      if luck.get != Answered {
        return false;
      }
      if k !in local.objects {
        return true;
      }
      if SourceLabel(local.objects[k]) != id {
        return true;
      }
      var (reply, after) := Delete(local, k);
      ok := Call(luck.write, (if reply == NotFound then Reply.Done else reply, after));
    }

    /** The pass does to the store exactly what the worker steps do, and reports failure exactly
        when they end in one. */
    method ReconcileKey(k: Key, luck: Luck) returns (ok: bool)
      modifies this
      ensures var ready := NamespaceOk(old(namespaces), old(existing), k.namespace, luck);
              Completed(id, inst, old(local), Picked(k), luck, ready) == (Finished(k, !ok), local)
      ensures Smooth(luck) && id != "" ==> Served(id, inst, old(local.objects), local.objects, k, ok)
      ensures old(namespaces) <= old(existing) ==> namespaces <= existing
      ensures old(namespaces) <= old(existing) && ok && k in inst.cache && k.kind in inst.kinds &&
              (inst.target == "" || k.namespace == inst.target) ==>
                k.namespace in existing
    {
      if Smooth(luck) && id != "" {
        SmoothPassServes(id, inst, local, k, luck, NamespaceOk(namespaces, existing, k.namespace, luck));
      }
      ghost var ready := NamespaceOk(namespaces, existing, k.namespace, luck);
      if inst.target != "" && k.namespace != inst.target {
        OneStep(id, inst, local, Picked(k), luck, ready);
        return true;
      }
      if k.kind !in inst.kinds {
        OneStep(id, inst, local, Picked(k), luck, ready);
        return false;
      }
      PassSteps(id, inst, local, k, luck, ready);
      if luck.source != Answered {
        return false;
      }
      if k !in inst.cache {
        ok := DeleteMirror(k, luck, ready);
        return;
      }
      var source := inst.cache[k];
      var named := EnsureNamespace(k.namespace, luck);
      if !named {
        return false;
      }
      ok := Upsert(k, source, luck, ready);
    }
  }

  // ---- The pass as a run ----

  lemma ActedOnce(world: World, id: string, n: nat, outcome: Outcome)
    requires id in world.instances && n < |world.instances[id].workers|
    requires Holding(world.instances[id].workers[n]).Some? && !world.instances[id].workers[n].Finished?
    ensures var inst := world.instances[id];
            var (next, after) := ReconcileStep(id, inst, world.local, inst.workers[n], outcome);
            Next(world, Work(id, n, outcome)) ==
            World(after, world.instances[id := inst.(workers := inst.workers[n := next])])
  {
  }

  /** Only scope and cache of an instance matter to a reconcile. */
  lemma {:induction false} CompletedReadsCache(id: string, inst: Instance, other: Instance, local: Store, w: Worker,
                                               luck: Luck, ready: bool)
    requires other == inst.(workers := other.workers)
    ensures Completed(id, other, local, w, luck, ready) == Completed(id, inst, local, w, luck, ready)
    decreases StepsLeft(w)
  {
    if StepsLeft(w) != 0 {
      var (next, after) := ReconcileStep(id, inst, local, w, OutcomeFor(w, luck, ready));
      assert ReconcileStep(id, other, local, w, OutcomeFor(w, luck, ready)) == (next, after);
      CompletedReadsCache(id, inst, other, after, next, luck, ready);
    }
  }

  /** A pass is a run of the step system in which only that worker acts. */
  lemma {:induction false} PassIsRun(world: World, id: string, n: nat, luck: Luck, ready: bool)
    returns (steps: seq<Step>)
    requires id in world.instances && n < |world.instances[id].workers|
    ensures forall s :: s in steps ==> s.Work? && s.id == id && s.worker == n
    ensures var inst := world.instances[id];
            var (w, after) := Completed(id, inst, world.local, inst.workers[n], luck, ready);
            Run(world, steps) == World(after, world.instances[id := inst.(workers := inst.workers[n := w])])
    decreases StepsLeft(world.instances[id].workers[n])
  {
    var inst := world.instances[id];
    var w := inst.workers[n];
    steps := [];
    if StepsLeft(w) == 0 {
      assert inst.workers[n := w] == inst.workers && world.instances[id := inst] == world.instances;
    } else {
      var outcome := OutcomeFor(w, luck, ready);
      var next, after := ReconcileStep(id, inst, world.local, w, outcome).0,
        ReconcileStep(id, inst, world.local, w, outcome).1;
      ActedOnce(world, id, n, outcome);
      var inst' := inst.(workers := inst.workers[n := next]);
      CompletedReadsCache(id, inst, inst', after, next, luck, ready);
      var rest := PassIsRun(World(after, world.instances[id := inst']), id, n, luck, ready);
      steps := [Work(id, n, outcome)] + rest;
      assert steps[1..] == rest;
      var last := Completed(id, inst, after, next, luck, ready).0;
      assert inst.workers[n := next][n := last] == inst.workers[n := last];
      assert world.instances[id := inst'][id := inst.(workers := inst.workers[n := last])] ==
             world.instances[id := inst.(workers := inst.workers[n := last])];
    }
  }

  // ---- What a pass achieves ----

  /** The two mirrors a pass cannot bring in sync: one under deletion with other content than is
      wanted, and one no longer wanted that finalizers hold. */
  ghost predicate Stuck(id: string, inst: Instance, objects: map<Key, Object>, k: Key) {
    && k in objects && Carries(objects[k], id)
    && if k in inst.cache then objects[k].deleting && !Mirrors(objects[k], inst.cache[k], id)
       else objects[k].finalizers != []
  }

  /** A pass that reports success leaves its key in sync if and only if the mirror it found was
      not stuck; a stuck one it leaves under deletion. */
  lemma SuccessIsInSync(id: string, inst: Instance, local: Store, k: Key, luck: Luck, ready: bool)
    requires id != "" && k.kind in inst.kinds && (inst.target == "" || k.namespace == inst.target)
    requires Completed(id, inst, local, Picked(k), luck, ready).0 == Finished(k, false)
    ensures var after := Completed(id, inst, local, Picked(k), luck, ready).1.objects;
            && (Mirrored(id, inst.cache, after, k) <==> !Stuck(id, inst, local.objects, k))
            && (Stuck(id, inst, local.objects, k) ==> UnderDeletion(id, after, k))
  {
    PassSteps(id, inst, local, k, luck, ready);
    var after := Completed(id, inst, local, Picked(k), luck, ready).1;
    MirroredIffInSync(id, inst, local, k);
    MirroredIffInSync(id, inst, after, k);
    if k in inst.cache {
      UpsertSteps(id, inst, local, k, inst.cache[k], luck, ready);
      if k in local.objects { FieldsDecide(local.objects[k], inst.cache[k], id); }
    } else {
      DeleteSteps(id, inst, local, k, luck, ready);
      if k in local.objects { FieldsDecide(local.objects[k], local.objects[k], id); }
    }
  }

  lemma SmoothUpsert(id: string, inst: Instance, local: Store, k: Key, luck: Luck, ready: bool)
    requires id != "" && Smooth(luck) && InScope(inst, k) && k in inst.cache && k.namespace != ""
    ensures var (w, after) := Completed(id, inst, local, NamespaceReady(k, inst.cache[k]), luck, ready);
            w.Finished? && w.key == k && Served(id, inst, local.objects, after.objects, k, !w.failed)
  {
    var source := inst.cache[k];
    UpsertSteps(id, inst, local, k, source, luck, ready);
    FieldsDecide(Desired(source, id), source, id);
    if k in local.objects { FieldsDecide(local.objects[k], source, id); }
  }

  /** A pass with every call answered serves its key: it creates a missing mirror, brings a live one up
      to date, removes one no longer wanted, and fails exactly on an unknown kind, an empty namespace
      or an object of another label. */
  lemma SmoothPassServes(id: string, inst: Instance, local: Store, k: Key, luck: Luck, ready: bool)
    requires id != "" && Smooth(luck) && (k.namespace != "" ==> ready)
    ensures var (w, after) := Completed(id, inst, local, Picked(k), luck, ready);
            w.Finished? && w.key == k && Served(id, inst, local.objects, after.objects, k, !w.failed)
  {
    if InScope(inst, k) {
      PassSteps(id, inst, local, k, luck, ready);
      if k in inst.cache {
        if k.namespace != "" { SmoothUpsert(id, inst, local, k, luck, ready); }
      } else {
        DeleteSteps(id, inst, local, k, luck, ready);
        if k in local.objects { FieldsDecide(local.objects[k], local.objects[k], id); }
      }
    } else {
      OneStep(id, inst, local, Picked(k), luck, ready);
    }
  }

  // ---- Progress ----

  /** Timer, sweep, watch and event handler do their part: a delayed or unswept key comes to be
      queued, the cache catches up with upstream, and an event is handled by queueing its key unless
      it is an update that changes neither labels, annotations nor spec. */
  lemma KeysGetQueued(inst: Instance, k: Key)
    ensures k in inst.delayed ==> k in DelayOverKey(inst, k).queue.dirty && k !in DelayOverKey(inst, k).delayed
    ensures k in inst.unswept && (inst.target == "" || k.namespace == inst.target) ==>
              k in SweepKey(inst, k).queue.dirty && k !in SweepKey(inst, k).unswept
    ensures var cache := WatchKey(inst, k).cache;
            (k in cache <==> k in inst.upstream) && (k in cache ==> cache[k] == inst.upstream[k])
    ensures inst.events != [] ==>
              var e, next := inst.events[0], HandleEvent(inst);
              && next.events == inst.events[1..]
              && ((inst.target == "" || e.key.namespace == inst.target) &&
                  !(e.Updated? && e.before.labels == e.after.labels && e.before.annotations == e.after.annotations &&
                    e.before.spec == e.after.spec) ==>
                    e.key in next.queue.dirty)
  {
    if inst.events != [] && inst.events[0].Updated? {
      SuppressedKeepsDesired(inst.events[0].before, inst.events[0].after);
    }
  }

  lemma {:induction false} RunConcat(world: World, steps: seq<Step>, more: seq<Step>)
    ensures Run(world, steps + more) == Run(Run(world, steps), more)
    decreases |steps|
  {
    if steps == [] {
      assert steps + more == more;
    } else {
      assert (steps + more)[1..] == steps[1..] + more;
      RunConcat(Next(world, steps[0]), steps[1..], more);
    }
  }

  lemma RunOne(world: World, step: Step)
    ensures Run(world, [step]) == Next(world, step)
  {
    assert [step][1..] == [];
  }

  /** A finished worker lets go of its key and is idle again. */
  lemma LetGo(world: World, id: string, n: nat, k: Key, failed: bool) returns (steps: seq<Step>)
    requires id in world.instances && n < |world.instances[id].workers|
    requires world.instances[id].workers[n] == Finished(k, failed)
    ensures forall s :: s in steps ==> s.Work? && s.id == id && s.worker == n
    ensures var inst := world.instances[id];
            Run(world, steps) ==
            World(world.local, world.instances[id := inst.(queue := inst.queue.Finish(k), workers :=
              inst.workers[n := Idle],
                                                           delayed := if failed then inst.delayed + {k}
                                                             else inst.delayed)])
  {
    var inst, act := world.instances[id], Work(id, n, Answered);
    var world1 := Next(world, act);
    RunOne(world, act);
    steps := [act];
    if failed {
      var inst1 := inst.(queue := inst.queue.Finish(k), workers := inst.workers[n := Retrying(k)]);
      assert world1 == World(world.local, world.instances[id := inst1]);
      RunConcat(world, [act], [act]);
      RunOne(world1, act);
      steps := [act] + [act];
      assert inst.workers[n := Retrying(k)][n := Idle] == inst.workers[n := Idle];
      assert Next(world1, act).instances == world.instances[id :=
             inst1.(delayed := inst.delayed + {k}, workers := inst.workers[n := Idle])];
    }
  }

  /** An idle worker of an instance whose sweep is done can always serve the first key of the queue:
      some steps of that worker alone leave it idle again with the key served, and a key that could
      not be served awaiting its retry. */
  lemma FirstKeyIsServed(world: World, id: string, n: nat) returns (steps: seq<Step>, ok: bool)
    requires id != "" && id in world.instances && n < |world.instances[id].workers|
    requires world.instances[id].workers[n].Idle? && world.instances[id].unswept == {} &&
               world.instances[id].queue.order != []
    ensures forall s :: s in steps ==> s.Work? && s.id == id && s.worker == n
    ensures var inst := world.instances[id]; var k, now := inst.queue.order[0], Run(world, steps);
            && id in now.instances
            && now.instances[id] == inst.(queue := inst.queue.Get().Finish(k),
                                          delayed := if ok then inst.delayed else inst.delayed + {k})
            && Served(id, inst, world.local.objects, now.local.objects, k, ok)
  {
    var inst := world.instances[id];
    var k, luck := inst.queue.order[0], Luck(Answered, Answered, Answered, Answered, Answered);
    var act := Work(id, n, Answered);
    var picked := inst.(queue := inst.queue.Get(), workers := inst.workers[n := Picked(k)]);
    var world1 := World(world.local, world.instances[id := picked]);
    assert Next(world, act) == world1;
    RunOne(world, act);
    var pass := PassIsRun(world1, id, n, luck, true);
    SmoothPassServes(id, picked, world.local, k, luck, true);
    var (w, after) := Completed(id, picked, world.local, Picked(k), luck, true);
    ok := !w.failed;
    var world2 := Run(world1, pass);
    RunConcat(world, [act], pass);
    steps := LetGo(world2, id, n, k, w.failed);
    RunConcat(world, [act] + pass, steps);
    steps := [act] + pass + steps;
    assert inst.workers[n := Picked(k)][n := w][n := Idle] == inst.workers;
  }

  /** The same keys with the same content, whatever versions and managed fields do. */
  ghost predicate SameContent(s: Store, t: Store) {
    s.objects.Keys == t.objects.Keys && forall k :: k in s.objects ==>
      ContentOf(s.objects[k]) == ContentOf(t.objects[k])
  }

  /** Idempotence on content: once the key is in sync, a further pass, with whatever luck,
      leaves the content of the store as it is. */
  lemma InSyncPassKeepsContent(id: string, inst: Instance, local: Store, k: Key, luck: Luck, ready: bool)
    requires InScope(inst, k) && InSync(id, inst, local, k)
    ensures SameContent(local, Completed(id, inst, local, Picked(k), luck, ready).1)
  {
    PassSteps(id, inst, local, k, luck, ready);
    DeleteSteps(id, inst, local, k, luck, ready);
    if k in inst.cache {
      InSyncUpsertKeepsContent(id, inst, local, k, inst.cache[k], luck, ready);
    }
  }

  lemma InSyncUpsertKeepsContent(id: string, inst: Instance, local: Store, k: Key, source: Object, luck: Luck,
                                 ready: bool)
    requires k in local.objects && ContentOf(local.objects[k]) == ContentOf(Desired(source, id))
    ensures SameContent(local, Completed(id, inst, local, NamespaceReady(k, source), luck, ready).1)
  {
    UpsertSteps(id, inst, local, k, source, luck, ready);
  }
}

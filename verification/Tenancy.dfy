/** Project references and their validation, internal/tenancy. */
module Tenancy {
  import opened Wrappers
  import Names
  import Api

  datatype Kind = ApiKey | DnsEndpoint | HealthCheckProfile | Location | PrefixList | Service | Zone | Project

  datatype Key = Key(kind: Kind, namespace: string, name: string)

  datatype Node = Node(healthCheck: Option<string>)
  datatype NodeGroup = NodeGroup(healthCheck: Option<string>, nodes: seq<Node>)

  /** The references a resource makes to others of its namespace. */
  datatype Body =
    | EndpointBody(zone: Option<string>)
    | PrefixListBody(destination: string)
    | LocationBody(fallbacks: seq<string>, parent: string, nodes: seq<Node>, groups: seq<NodeGroup>)
    | PlainBody

  datatype Resource = Resource(project: Option<string>, body: Body, deleting: bool)

  type Store = map<Key, Resource>

  /** Dedicated mode (`namespaced`): a project owns the namespace of its name.  Shared mode: all
      projects live in one target namespace. */
  datatype Scope = Scope(namespaced: bool, target: string) {
    predicate ValidateNamespace(namespace: string) {
      namespaced || namespace == target
    }

    predicate ValidateProject(namespace: string, name: string) {
      ValidateNamespace(namespace) && (namespaced ==> name == namespace)
    }
  }

  predicate SameProject(k: Key, r: Resource, k': Key, r': Resource) {
    Api.SameProject(k.namespace, r.project, k'.namespace, r'.project)
  }

  // ---- References ----

  function AllNodes(nodes: seq<Node>, groups: seq<NodeGroup>): seq<Node> {
    if groups == [] then nodes
    else var last := |groups| - 1; AllNodes(nodes, groups[..last]) + groups[last].nodes
  }

  /** Target `k` is referred to by the resource `r` stored under `from`. */
  ghost predicate RefersTo(from: Key, r: Resource, k: Key) {
    k.namespace == from.namespace &&
    match r.body
    case EndpointBody(zone) => k.kind == Zone && zone == Some(k.name)
    case PrefixListBody(destination) => k.kind == Location && k.name == destination
    case LocationBody(fallbacks, parent, nodes, groups) =>
      || (k.kind == Location && (k.name in fallbacks || (parent != "" && k.name == parent)))
      || (k.kind == HealthCheckProfile &&
          ((exists g :: g in groups && g.healthCheck == Some(k.name)) ||
           (exists n :: n in AllNodes(nodes, groups) && n.healthCheck == Some(k.name))))
    case PlainBody => false
  }

  ghost predicate TargetOk(store: Store, from: Key, r: Resource, k: Key) {
    k.name != "" && k in store && SameProject(from, r, k, store[k])
  }

  /** What validation establishes for a resource that is not a Project. */
  ghost predicate Valid(scope: Scope, store: Store, key: Key, r: Resource, before: Option<Resource>) {
    && scope.ValidateNamespace(key.namespace)
    && r.project.Some? && r.project.value != "" && scope.ValidateProject(key.namespace, r.project.value)
    && (before.Some? ==> before.value.project == r.project)
    && var project := Key(Project, key.namespace, r.project.value);
       && project in store && !store[project].deleting
       && (forall k :: RefersTo(key, r, k) ==> TargetOk(store, key, r, k))
       && (r.body.LocationBody? ==> !RefersTo(key, r, Key(Location, key.namespace, key.name)))
  }

  method ValidateReference(store: Store, key: Key, r: Resource, kind: Kind, name: string) returns (ok: bool)
    ensures ok <==> TargetOk(store, key, r, Key(kind, key.namespace, name))
  {
    if name == "" {
      return false;
    }
    var target := Key(kind, key.namespace, name);
    if target !in store {
      return false;
    }
    return SameProject(key, r, target, store[target]);
  }

  method ValidateHealthCheck(store: Store, key: Key, r: Resource, reference: Option<string>) returns (ok: bool)
    ensures ok <==> reference.Some? ==> TargetOk(store, key, r, Key(HealthCheckProfile, key.namespace, reference.value))
  {
    if reference.None? {
      return true;
    }
    ok := ValidateReference(store, key, r, HealthCheckProfile, reference.value);
  }

  method ValidateLocations(store: Store, key: Key, r: Resource, fallbacks: seq<string>, parent: string)
    returns (ok: bool)
    ensures ok <==> forall name :: (name in fallbacks || (parent != "" && name == parent)) ==>
              name != key.name && TargetOk(store, key, r, Key(Location, key.namespace, name))
  {
    var locations := fallbacks;
    if parent != "" {
      locations := locations + [parent];
    }
    assert forall name :: name in locations <==> name in fallbacks || (parent != "" && name == parent);
    for i := 0 to |locations|
      invariant forall n :: 0 <= n < i ==>
                  locations[n] != key.name && TargetOk(store, key, r, Key(Location, key.namespace, locations[n]))
    {
      assert locations[i] in locations;
      if locations[i] == key.name {
        return false;
      }
      var found := ValidateReference(store, key, r, Location, locations[i]);
      if !found {
        return false;
      }
    }
    forall name | name in fallbacks || (parent != "" && name == parent)
      ensures name != key.name && TargetOk(store, key, r, Key(Location, key.namespace, name))
    {
      assert name in locations;
      var n :| 0 <= n < |locations| && locations[n] == name;
    }
    return true;
  }

  method ValidateNodes(store: Store, key: Key, r: Resource, nodes: seq<Node>, groups: seq<NodeGroup>) returns (ok: bool)
    ensures ok <==> forall name ::
              (exists g :: g in groups && g.healthCheck == Some(name)) ||
                (exists n :: n in AllNodes(nodes, groups) && n.healthCheck == Some(name)) ==>
              TargetOk(store, key, r, Key(HealthCheckProfile, key.namespace, name))
  {
    var all := nodes;
    for i := 0 to |groups|
      invariant all == AllNodes(nodes, groups[..i])
      invariant forall j :: 0 <= j < i && groups[j].healthCheck.Some? ==>
                  TargetOk(store, key, r, Key(HealthCheckProfile, key.namespace, groups[j].healthCheck.value))
    {
      var found := ValidateHealthCheck(store, key, r, groups[i].healthCheck);
      if !found {
        assert groups[i] in groups;
        return false;
      }
      assert groups[..i + 1][..i] == groups[..i];
      all := all + groups[i].nodes;
    }
    assert groups[..|groups|] == groups;
    for i := 0 to |all|
      invariant forall j :: 0 <= j < i && all[j].healthCheck.Some? ==>
                  TargetOk(store, key, r, Key(HealthCheckProfile, key.namespace, all[j].healthCheck.value))
    {
      var found := ValidateHealthCheck(store, key, r, all[i].healthCheck);
      if !found {
        assert all[i] in AllNodes(nodes, groups);
        return false;
      }
    }
    return true;
  }

  // ---- The rules, field by field ----

  /** The name stands for an object of that kind in the namespace, and one of the project; unless it
      `must`, it need not exist. */
  ghost predicate Resolves(store: Store, r: Resource, kind: Kind, namespace: string, name: string, must: bool) {
    && (must ==> name != "" && Key(kind, namespace, name) in store)
    && (Key(kind, namespace, name) in store ==>
          r.project.Some? && store[Key(kind, namespace, name)].project == r.project)
  }

  /** So do the zone of an endpoint, the destination of a prefix list, the fallbacks and the parent of a
      location, and the health checks of its nodes, its groups and their nodes. */
  ghost predicate RefsOk(store: Store, namespace: string, r: Resource, must: bool) {
    match r.body
    case EndpointBody(zone) => zone.Some? ==> Resolves(store, r, Zone, namespace, zone.value, must)
    case PrefixListBody(destination) => Resolves(store, r, Location, namespace, destination, must)
    case LocationBody(fallbacks, parent, nodes, groups) =>
      && (forall name :: name in fallbacks ==> Resolves(store, r, Location, namespace, name, must))
      && (parent != "" ==> Resolves(store, r, Location, namespace, parent, must))
      && (forall n :: n in nodes && n.healthCheck.Some? ==>
            Resolves(store, r, HealthCheckProfile, namespace, n.healthCheck.value, must))
      && (forall g :: g in groups && g.healthCheck.Some? ==>
            Resolves(store, r, HealthCheckProfile, namespace, g.healthCheck.value, must))
      && (forall g, n :: g in groups && n in g.nodes && n.healthCheck.Some? ==>
            Resolves(store, r, HealthCheckProfile, namespace, n.healthCheck.value, must))
    case PlainBody => true
  }

  /** The project owns the namespace in dedicated mode; in shared mode there is one namespace. */
  ghost predicate MayPlace(scope: Scope, namespace: string, project: string) {
    if scope.namespaced then project == namespace else namespace == scope.target
  }

  ghost predicate Accepted(scope: Scope, store: Store, key: Key, r: Resource, before: Option<Resource>) {
    && r.project.Some? && r.project.value != "" && MayPlace(scope, key.namespace, r.project.value)
    && (before.Some? ==> before.value.project == r.project)
    && Key(Project, key.namespace, r.project.value) in store
    && !store[Key(Project, key.namespace, r.project.value)].deleting
    && RefsOk(store, key.namespace, r, true)
    && (r.body.LocationBody? ==> key.name !in r.body.fallbacks && (r.body.parent == "" || r.body.parent != key.name))
  }

  lemma {:induction false} NodesOfGroups(nodes: seq<Node>, groups: seq<NodeGroup>, n: Node)
    ensures n in AllNodes(nodes, groups) <==> n in nodes || exists g :: g in groups && n in g.nodes
    decreases |groups|
  {
    if groups != [] {
      var last := |groups| - 1;
      NodesOfGroups(nodes, groups[..last], n);
      assert groups == groups[..last] + [groups[last]];
    }
  }

  /** All targets of a location are right exactly when each of its fields is. */
  lemma LocationFields(store: Store, key: Key, r: Resource, must: bool)
    requires r.body.LocationBody?
    ensures RefsOk(store, key.namespace, r, must) <==>
              forall k :: RefersTo(key, r, k) ==> Resolves(store, r, k.kind, key.namespace, k.name, must)
  {
    var b := r.body;
    LocationRefs(key, r);
    forall n ensures n in AllNodes(b.nodes, b.groups) <==> n in b.nodes || exists g :: g in b.groups && n in g.nodes {
      NodesOfGroups(b.nodes, b.groups, n);
    }
    if forall k :: RefersTo(key, r, k) ==> Resolves(store, r, k.kind, key.namespace, k.name, must) {
      forall name | RefersTo(key, r, Key(Location, key.namespace, name))
        ensures Resolves(store, r, Location, key.namespace, name, must)
      {
      }
      forall name | RefersTo(key, r, Key(HealthCheckProfile, key.namespace, name))
        ensures Resolves(store, r, HealthCheckProfile, key.namespace, name, must)
      {
      }
    }
  }

  lemma RefsIff(store: Store, key: Key, r: Resource, must: bool)
    ensures RefsOk(store, key.namespace, r, must) <==>
              forall k :: RefersTo(key, r, k) ==> Resolves(store, r, k.kind, key.namespace, k.name, must)
  {
    match r.body {
      case EndpointBody(zone) =>
        if zone.Some? { assert RefersTo(key, r, Key(Zone, key.namespace, zone.value)); }
      case PrefixListBody(destination) => assert RefersTo(key, r, Key(Location, key.namespace, destination));
      case LocationBody(_, _, _, _) => LocationFields(store, key, r, must);
      case PlainBody =>
    }
  }

  /** Validation accepts exactly what the rules allow. */
  lemma ValidIffAccepted(scope: Scope, store: Store, key: Key, r: Resource, before: Option<Resource>)
    ensures Valid(scope, store, key, r, before) <==> Accepted(scope, store, key, r, before)
  {
    RefsIff(store, key, r, true);
    if r.project.Some? {
      forall k | RefersTo(key, r, k)
        ensures TargetOk(store, key, r, k) <==> Resolves(store, r, k.kind, key.namespace, k.name, true)
      {
        assert k == Key(k.kind, key.namespace, k.name);
      }
    }
    if r.body.LocationBody? { LocationRefs(key, r); }
  }

  method ValidateResource(scope: Scope, store: Store, key: Key, r: Resource, before: Option<Resource>)
    returns (ok: bool)
    ensures key.kind.Project? ==> (ok <==> MayPlace(scope, key.namespace, key.name))
    ensures !key.kind.Project? ==> (ok <==> Accepted(scope, store, key, r, before))
    ensures !key.kind.Project? ==> (ok <==> Valid(scope, store, key, r, before))
  {
    ValidIffAccepted(scope, store, key, r, before);
    if key.kind.Project? {
      return scope.ValidateProject(key.namespace, key.name);
    }
    if !scope.ValidateNamespace(key.namespace) {
      return false;
    }
    if r.project.None? || r.project.value == "" {
      return false;
    }
    if !scope.ValidateProject(key.namespace, r.project.value) {
      return false;
    }
    if before.Some? && before.value.project != r.project {
      return false;
    }
    var project := Key(Project, key.namespace, r.project.value);
    if project !in store || store[project].deleting {
      return false;
    }
    match r.body {
      case EndpointBody(zone) =>
        if zone.Some? {
          ok := ValidateReference(store, key, r, Zone, zone.value);
          assert RefersTo(key, r, Key(Zone, key.namespace, zone.value));
          return;
        }
      case PrefixListBody(destination) =>
        ok := ValidateReference(store, key, r, Location, destination);
        assert RefersTo(key, r, Key(Location, key.namespace, destination));
        return;
      case LocationBody(fallbacks, parent, nodes, groups) =>
        var locations := ValidateLocations(store, key, r, fallbacks, parent);
        if !locations {
          LocationRefs(key, r);
          return false;
        }
        var checks := ValidateNodes(store, key, r, nodes, groups);
        LocationRefs(key, r);
        return checks;
      case PlainBody =>
    }
    return true;
  }

  /** The targets of a location, spelled out by kind. */
  lemma LocationRefs(key: Key, r: Resource)
    requires r.body.LocationBody?
    ensures forall name :: RefersTo(key, r, Key(Location, key.namespace, name)) <==>
              name in r.body.fallbacks || (r.body.parent != "" && name == r.body.parent)
    ensures forall name :: RefersTo(key, r, Key(HealthCheckProfile, key.namespace, name)) <==>
              (exists g :: g in r.body.groups && g.healthCheck == Some(name)) ||
              (exists n :: n in AllNodes(r.body.nodes, r.body.groups) && n.healthCheck == Some(name))
    ensures forall k :: RefersTo(key, r, k) ==>
              k == Key(k.kind, key.namespace, k.name) && (k.kind == Location || k.kind == HealthCheckProfile)
  {
  }

  // ---- Runs ----

  datatype Step = Write(key: Key, resource: Resource) | Mark(key: Key) | Delete(key: Key)

  /** A write is stored if it is admitted; no write can set or clear a deletion. */
  ghost function Next(scope: Scope, store: Store, step: Step): Store {
    match step
    case Write(key, r) =>
      var before := if key in store then Some(store[key]) else None;
      if if key.kind.Project? then scope.ValidateProject(key.namespace, key.name)
        else Valid(scope, store, key, r, before)
      then store[key := r.(deleting := key in store && store[key].deleting)] else store
    case Mark(key) => if key in store then store[key := store[key].(deleting := true)] else store
    case Delete(key) => store - {key}
  }

  ghost function Run(scope: Scope, store: Store, steps: seq<Step>): Store
    decreases |steps|
  {
    if steps == [] then store else Run(scope, Next(scope, store, steps[0]), steps[1..])
  }

  /** Every reference that resolves stays within one project. */
  ghost predicate Contained(store: Store) {
    forall j, k :: j in store && !j.kind.Project? && k in store && !k.kind.Project? && RefersTo(j, store[j], k) ==>
      SameProject(j, store[j], k, store[k])
  }

  /** Every resource lies where its project may place it: in dedicated mode in the namespace of
      the project's name, in shared mode in the target namespace. */
  ghost predicate Placed(scope: Scope, store: Store) {
    forall k :: k in store && !k.kind.Project? ==>
      store[k].project.Some? && scope.ValidateProject(k.namespace, store[k].project.value)
  }

  lemma {:induction false} RunStaysPlaced(scope: Scope, store: Store, steps: seq<Step>)
    requires Placed(scope, store)
    ensures Placed(scope, Run(scope, store, steps))
    decreases |steps|
  {
    if steps != [] { RunStaysPlaced(scope, Next(scope, store, steps[0]), steps[1..]); }
  }

  /** Dedicated mode: containment holds in every reachable state, whatever is deleted and recreated. */
  lemma DedicatedIsContained(scope: Scope, steps: seq<Step>)
    requires scope.namespaced
    ensures Contained(Run(scope, map[], steps))
  {
    RunStaysPlaced(scope, map[], steps);
  }

  /** Every reference resolves, within one project. */
  ghost predicate Resolved(store: Store) {
    forall j, k :: j in store && !j.kind.Project? && RefersTo(j, store[j], k) ==> TargetOk(store, j, store[j], k)
  }

  /** No referenced object is deleted. */
  ghost predicate KeepsTargets(store: Store, step: Step) {
    step.Delete? ==> forall j :: j in store && !j.kind.Project? && j != step.key ==> !RefersTo(j, store[j], step.key)
  }

  ghost predicate AllKeepTargets(scope: Scope, store: Store, steps: seq<Step>)
    decreases |steps|
  {
    steps != [] ==> KeepsTargets(store, steps[0]) && AllKeepTargets(scope, Next(scope, store, steps[0]), steps[1..])
  }

  /** Nothing refers to a Project by these references. */
  lemma TargetsAreNotProjects(j: Key, r: Resource, k: Key)
    requires RefersTo(j, r, k)
    ensures !k.kind.Project?
  {
  }

  lemma NextStaysResolved(scope: Scope, store: Store, step: Step)
    requires Resolved(store) && KeepsTargets(store, step)
    ensures Resolved(Next(scope, store, step))
  {
    var after := Next(scope, store, step);
    forall j, k | j in after && !j.kind.Project? && RefersTo(j, after[j], k) ensures TargetOk(after, j, after[j], k) {
      TargetsAreNotProjects(j, after[j], k);
      if step.Write? && j == step.key && after != store {
        assert RefersTo(j, step.resource, k) && TargetOk(store, j, step.resource, k);
      } else {
        assert RefersTo(j, store[j], k);
        assert TargetOk(store, j, store[j], k);
      }
    }
  }

  lemma {:induction false} RunStaysResolved(scope: Scope, store: Store, steps: seq<Step>)
    requires Resolved(store) && AllKeepTargets(scope, store, steps)
    ensures Resolved(Run(scope, store, steps))
    decreases |steps|
  {
    if steps != [] {
      NextStaysResolved(scope, store, steps[0]);
      RunStaysResolved(scope, Next(scope, store, steps[0]), steps[1..]);
    }
  }

  /** In either mode: as long as no referenced object is deleted, every reference resolves and
      stays within one project. */
  lemma KeptTargetsAreContained(scope: Scope, steps: seq<Step>)
    requires AllKeepTargets(scope, map[], steps)
    ensures var store := Run(scope, map[], steps); Resolved(store) && Contained(store) && Placed(scope, store)
  {
    RunStaysResolved(scope, map[], steps);
    RunStaysPlaced(scope, map[], steps);
  }

  /** In every reachable state of a run that keeps targets, every reference field of every stored
      resource names an object of the same namespace and project. */
  lemma KeptReferencesResolve(scope: Scope, steps: seq<Step>, j: Key)
    requires AllKeepTargets(scope, map[], steps)
    ensures var store := Run(scope, map[], steps);
            j in store && !j.kind.Project? ==> store[j].project.Some? && RefsOk(store, j.namespace, store[j], true)
  {
    KeptTargetsAreContained(scope, steps);
    var store := Run(scope, map[], steps);
    if j in store && !j.kind.Project? {
      RefsIff(store, j, store[j], true);
      forall k | RefersTo(j, store[j], k) ensures Resolves(store, store[j], k.kind, j.namespace, k.name, true) {
        assert TargetOk(store, j, store[j], k) && k == Key(k.kind, j.namespace, k.name);
      }
    }
  }

  /** In dedicated mode, in every reachable state of every run, every stored resource is of the project
      of its namespace, and so is every object that one of its reference fields names. */
  lemma DedicatedReferencesAgree(scope: Scope, steps: seq<Step>, j: Key)
    requires scope.namespaced
    ensures var store := Run(scope, map[], steps);
            j in store && !j.kind.Project? ==>
              store[j].project == Some(j.namespace) && RefsOk(store, j.namespace, store[j], false)
  {
    RunStaysPlaced(scope, map[], steps);
    var store := Run(scope, map[], steps);
    if j in store && !j.kind.Project? {
      RefsIff(store, j, store[j], false);
      forall k | RefersTo(j, store[j], k) ensures Resolves(store, store[j], k.kind, j.namespace, k.name, false) {
        TargetsAreNotProjects(j, store[j], k);
        assert k == Key(k.kind, j.namespace, k.name);
      }
    }
  }

  // ---- Exactly which steps endanger containment ----

  /** Further steps that delete no referenced object can make a reference cross projects. */
  ghost predicate CanCross(scope: Scope, store: Store) {
    exists more :: AllKeepTargets(scope, store, more) && !Contained(Run(scope, store, more))
  }

  /** In a store where every reference resolves, a step lets a reference come to cross projects
      if and only if the mode is shared and the step deletes an object that another refers to. */
  lemma CrossesIffTargetDeleted(scope: Scope, store: Store, step: Step)
    requires Resolved(store) && Placed(scope, store)
    ensures CanCross(scope, Next(scope, store, step)) <==> !scope.namespaced && !KeepsTargets(store, step)
  {
    if scope.namespaced {
      PlacedNeverCrosses(scope, Next(scope, store, step));
    } else if KeepsTargets(store, step) {
      NextStaysResolved(scope, store, step);
      ResolvedNeverCrosses(scope, Next(scope, store, step));
    } else {
      var j :| j in store && !j.kind.Project? && j != step.key && RefersTo(j, store[j], step.key);
      RecreatedElsewhere(scope, store, j, step.key);
    }
  }

  lemma PlacedNeverCrosses(scope: Scope, store: Store)
    requires scope.namespaced && Placed(scope, store)
    ensures !CanCross(scope, store)
  {
    forall more ensures Contained(Run(scope, store, more)) { RunStaysPlaced(scope, store, more); }
  }

  lemma ResolvedNeverCrosses(scope: Scope, store: Store)
    requires Resolved(store)
    ensures !CanCross(scope, store)
  {
    forall more | AllKeepTargets(scope, store, more) ensures Contained(Run(scope, store, more)) {
      RunStaysResolved(scope, store, more);
    }
  }

  /** The deleted target is created again, under a project whose name is not in use. */
  lemma RecreatedElsewhere(scope: Scope, store: Store, j: Key, k: Key)
    requires !scope.namespaced && Resolved(store) && Placed(scope, store)
    requires j in store && !j.kind.Project? && j != k && RefersTo(j, store[j], k)
    ensures CanCross(scope, store - {k})
  {
    TargetsAreNotProjects(j, store[j], k);
    assert TargetOk(store, j, store[j], k);
    var name := Names.LongerThanAll((set x | x in store :: x.name) + {store[j].project.value});
    var project := Key(Project, scope.target, name);
    var first, second := Write(project, Resource(None, PlainBody, false)),
      Write(k, Resource(Some(name), PlainBody, false));
    var store1 := (store - {k})[project := first.resource];
    assert project !in store && Next(scope, store - {k}, first) == store1;
    var store2 := store1[k := second.resource];
    assert Next(scope, store1, second) == store2;
    assert j in store2 && store2[j] == store[j] && !SameProject(j, store2[j], k, store2[k]);
    var more := [first, second];
    assert more[1..] == [second] && [second][1..] == [];
    assert Run(scope, store - {k}, more) == Run(scope, store1, [second]) == store2;
    assert AllKeepTargets(scope, store1, [second]);
  }

  // ---- The limit of shared mode ----

  lemma {:induction false} RunOneMore(scope: Scope, store: Store, steps: seq<Step>, step: Step)
    ensures Run(scope, store, steps + [step]) == Next(scope, Run(scope, store, steps), step)
    decreases |steps|
  {
    if steps != [] {
      assert (steps + [step])[1..] == steps[1..] + [step];
      RunOneMore(scope, Next(scope, store, steps[0]), steps[1..], step);
    }
  }

  lemma Follow(scope: Scope, store: Store, steps: seq<Step>, step: Step) returns (after: Store, more: seq<Step>)
    requires Run(scope, map[], steps) == store
    ensures more == steps + [step] && after == Next(scope, store, step) == Run(scope, map[], more)
  {
    RunOneMore(scope, map[], steps, step);
    after, more := Next(scope, store, step), steps + [step];
  }

  /** In shared mode a zone that is deleted and recreated under another project leaves an endpoint
      that refers across projects, for any two projects. */
  lemma RecreatedTargetCrossesProjects(target: string, p: string, q: string) returns (steps: seq<Step>)
    requires p != q && p != "" && q != ""
    ensures !Contained(Run(Scope(false, target), map[], steps))
  {
    var scope := Scope(false, target);
    var project := Resource(None, PlainBody, false);
    var mine, theirs := Resource(Some(p), PlainBody, false), Resource(Some(q), PlainBody, false);
    var record := Resource(Some(p), EndpointBody(Some("z")), false);
    var pk, qk := Key(Project, target, p), Key(Project, target, q);
    var zone, endpoint := Key(Zone, target, "z"), Key(DnsEndpoint, target, "e");
    var store: Store;
    store, steps := Follow(scope, map[], [], Write(pk, project));
    store, steps := Follow(scope, store, steps, Write(qk, project));
    store, steps := Follow(scope, store, steps, Write(zone, mine));
    assert zone in store && store[zone] == mine;
    store, steps := Follow(scope, store, steps, Write(endpoint, record));
    assert endpoint in store && store[endpoint] == record;
    store, steps := Follow(scope, store, steps, Delete(zone));
    store, steps := Follow(scope, store, steps, Write(zone, theirs));
    assert store[zone] == theirs && store[endpoint] == record && RefersTo(endpoint, record, zone);
  }
}

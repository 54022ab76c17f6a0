/** Admissions and zone reconciles over whole runs: internal/controller/zone_controller.go
    together with the two webhooks.  Checking and storing a write is one step. */
module DnsLifecycle {
  import opened Wrappers
  import opened Names
  import opened Api
  import opened DnsAdmission

  const CLEANUP := "edgecdnx.com/zone-cleanup"
  const HEALTHY := "Healthy"

  // ---- One pass of the zone reconciler ----

  predicate Refers(k: ObjectKey, e: Endpoint, zone: ObjectKey) {
    k.namespace == zone.namespace && e.spec.zone == Some(zone.name)
  }

  ghost function Referring(c: Cluster, zone: ObjectKey): set<ObjectKey> {
    set k | k in c.endpoints && Refers(k, c.endpoints[k], zone)
  }

  /** API update of a zone: an object under deletion goes with its last finalizer. */
  function StoreZone(zones: map<ObjectKey, Zone>, key: ObjectKey, zone: Zone): map<ObjectKey, Zone> {
    if zone.deleting && zone.finalizers == {} then zones - {key} else zones[key := zone]
  }

  ghost function ZonePass(c: Cluster, key: ObjectKey): Cluster {
    if key !in c.zones then c
    else
      var zone := c.zones[key];
      if !zone.deleting then
        c.(zones := c.zones[key := zone.(finalizers := zone.finalizers + {CLEANUP}, status := HEALTHY)])
      else if CLEANUP !in zone.finalizers then c
      else if Referring(c, key) != {} then c.(endpoints := DeleteEndpoints(c.endpoints, Referring(c, key)))
      else c.(zones := StoreZone(c.zones, key, zone.(finalizers := zone.finalizers - {CLEANUP})))
  }

  /** A pass that a failed call cut short: the finalizer was added and the status not set, or only
      some of the endpoints were deleted. */
  ghost function ZonePart(c: Cluster, key: ObjectKey, done: set<ObjectKey>): Cluster {
    if key !in c.zones then c
    else
      var zone := c.zones[key];
      if !zone.deleting then c.(zones := c.zones[key := zone.(finalizers := zone.finalizers + {CLEANUP})])
      else if CLEANUP !in zone.finalizers then c
      else c.(endpoints := DeleteEndpoints(c.endpoints, done * Referring(c, key)))
  }

  /** What a pass that reports an error may leave; the last answer may have been lost. */
  ghost predicate MayLeave(c: Cluster, key: ObjectKey, d: Cluster) {
    d == c || d == ZonePass(c, key) || exists done :: d == ZonePart(c, key, done)
  }

  /** The zone reconciler and the API server it talks to; `outcome` says how each call ends. */
  class ZoneReconciler {
    const outcome: nat -> Outcome
    var zones: map<ObjectKey, Zone>
    var endpoints: map<ObjectKey, Endpoint>
    var calls: nat

    ghost function State(): Cluster
      reads this
    {
      Cluster(zones, endpoints)
    }

    ghost predicate Reliable() {
      forall n: nat :: outcome(n) == Answered
    }

    constructor (c: Cluster, outcome: nat -> Outcome)
      ensures State() == c && this.outcome == outcome
    {
      this.outcome, zones, endpoints, calls := outcome, c.zones, c.endpoints, 0;
    }

    method Call() returns (o: Outcome)
      modifies this`calls
      ensures Reliable() ==> o == Answered
    {
      o, calls := outcome(calls), calls + 1;
    }

    /** The deletion branch up to the removal of the finalizer. */
    method DeleteReferring(key: ObjectKey) returns (ok: bool, pending: bool)
      modifies this`endpoints, this`calls
      ensures ok ==> endpoints == DeleteEndpoints(old(endpoints), Referring(old(State()), key))
      ensures ok ==> (pending <==> Referring(old(State()), key) != {})
      ensures !ok ==> !Reliable() && exists done ::
                done <= Referring(old(State()), key) && endpoints == DeleteEndpoints(old(endpoints), done)
    {
      ghost var referring := Referring(State(), key);
      ghost var done := {};
      pending := false;
      var listed := endpoints;
      var o := Call();
      if o != Answered {
        assert endpoints == DeleteEndpoints(listed, done);
        return false, pending;
      }
      var left := listed.Keys;
      while left != {}
        invariant left <= listed.Keys && done == referring - left
        invariant endpoints == DeleteEndpoints(listed, done)
        invariant pending <==> done != {}
        decreases left
      {
        var k :| k in left;
        left := left - {k};
        if k.namespace != key.namespace || listed[k].spec.zone.None? || listed[k].spec.zone.value != key.name {
          assert done == referring - left;
          continue;
        }
        assert k in referring;
        pending := true;
        DeleteOneMore(listed, done, k);
        if !listed[k].deleting {
          o := Call();
          if o != Refused {
            endpoints := DeleteEndpoint(endpoints, k);
            done := done + {k};
          }
          if o != Answered {
            return false, pending;
          }
        } else {
          done := done + {k};
        }
        assert done == referring - left;
      }
      assert done == referring;
      ok := true;
    }

    /** One pass over a zone.  It fails only when a call fails. */
    method Reconcile(key: ObjectKey) returns (ok: bool, requeue: bool)
      modifies this`zones, this`endpoints, this`calls
      ensures ok ==> State() == ZonePass(old(State()), key)
      ensures !ok ==> !Reliable() && MayLeave(old(State()), key, State())
      ensures ok ==> (requeue <==>
                        && key in old(zones) && old(zones[key]).deleting && CLEANUP in old(zones[key]).finalizers
                        && exists k :: k in old(endpoints) && k.namespace == key.namespace &&
                             old(endpoints)[k].spec.zone == Some(key.name))
      ensures ok && key in old(zones) && !old(zones)[key].deleting ==> Tended(old(State()), key, State())
    {
      ghost var before := State();
      var o := Call();
      if o != Answered {
        return false, false;
      }
      if key !in zones {
        return true, false;
      }
      var zone := zones[key];
      if zone.deleting {
        if CLEANUP !in zone.finalizers {
          return true, false;
        }
        var deleted, pending := DeleteReferring(key);
        if !deleted {
          ghost var done :| done <= Referring(before, key) && endpoints == DeleteEndpoints(before.endpoints, done);
          assert done * Referring(before, key) == done;
          assert State() == ZonePart(before, key, done);
          return false, false;
        }
        if pending {
          return true, true;
        }
        assert endpoints == before.endpoints;
        o := Call();
        if o != Refused {
          zones := StoreZone(zones, key, zone.(finalizers := zone.finalizers - {CLEANUP}));
        }
        return o == Answered, false;
      }
      if CLEANUP !in zone.finalizers {
        o := Call();
        if o != Refused {
          zone := zone.(finalizers := zone.finalizers + {CLEANUP});
          zones := zones[key := zone];
          assert State() == ZonePart(before, key, {});
        }
        if o != Answered {
          return false, false;
        }
      }
      assert zone == before.zones[key].(finalizers := before.zones[key].finalizers + {CLEANUP});
      assert zones == before.zones[key := zone];
      assert State() == ZonePart(before, key, {});
      if zone.status != HEALTHY {
        o := Call();
        if o != Refused {
          zone := zone.(status := HEALTHY);
          zones := zones[key := zone];
          assert State() == ZonePass(before, key);
        }
        return o == Answered, false;
      }
      assert State() == ZonePass(before, key);
      return true, false;
    }
  }

  // ---- Runs ----

  datatype Step =
    | WriteEndpoint(key: ObjectKey, endpoint: Endpoint)
    | MarkEndpoint(key: ObjectKey)
    | DropEndpoint(key: ObjectKey)
    | WriteZone(key: ObjectKey, zone: Zone)
    | DeleteZone(key: ObjectKey)
    | ReconcileZone(key: ObjectKey)
    | CutShort(key: ObjectKey, done: set<ObjectKey>)

  /** A write is stored if it is admitted.  The zone name is immutable by schema, and no write
      can set or clear a deletion. */
  ghost function Next(dns: Dns, c: Cluster, step: Step): Cluster {
    match step
    case WriteEndpoint(key, e) =>
      if SpecOk(dns, c.zones, key.namespace, e.spec) && NoConflict(dns, c.endpoints, key, e.spec)
      then c.(endpoints := c.endpoints[key := e.(deleting := key in c.endpoints && c.endpoints[key].deleting)])
      else c
    case MarkEndpoint(key) =>
      if key in c.endpoints then c.(endpoints := c.endpoints[key := c.endpoints[key].(deleting := true)]) else c
    case DropEndpoint(key) => c.(endpoints := c.endpoints - {key})
    case WriteZone(key, zone) =>
      if NoOverlap(c.zones, key, zone.zone) && (key in c.zones ==> zone.zone == c.zones[key].zone)
      then c.(zones := StoreZone(c.zones, key, zone.(deleting := key in c.zones && c.zones[key].deleting)))
      else c
    case DeleteZone(key) =>
      if key in c.zones then c.(zones := StoreZone(c.zones, key, c.zones[key].(deleting := true))) else c
    case ReconcileZone(key) => ZonePass(c, key)
    case CutShort(key, done) => ZonePart(c, key, done)
  }

  /** Whatever a pass leaves, completed or not, is reached by a step of the run or by none. */
  lemma EveryPassIsAStep(dns: Dns, c: Cluster, key: ObjectKey, d: Cluster)
    requires MayLeave(c, key, d)
    ensures d == c || exists step: Step ::
              (step.ReconcileZone? || step.CutShort?) && step.key == key && d == Next(dns, c, step)
  {
    if d == ZonePass(c, key) {
      assert d == Next(dns, c, ReconcileZone(key));
    } else if d != c {
      var done :| d == ZonePart(c, key, done);
      assert d == Next(dns, c, CutShort(key, done));
    }
  }

  ghost function Run(dns: Dns, c: Cluster, steps: seq<Step>): Cluster
    decreases |steps|
  {
    if steps == [] then c else Run(dns, Next(dns, c, steps[0]), steps[1..])
  }

  /** The steps after which an endpoint names a zone that is gone: a zone held by no finalizer is
      deleted, or an update clears the last finalizer of one under deletion, while still in use. */
  ghost predicate Orphans(c: Cluster, step: Step) {
    match step
    case DeleteZone(key) => key in c.zones && c.zones[key].finalizers == {} && Referring(c, key) != {}
    case WriteZone(key, zone) =>
      && key in c.zones && c.zones[key].deleting && zone.finalizers == {}
      && zone.zone == c.zones[key].zone && Referring(c, key) != {}
    case _ => false
  }

  ghost predicate NoOrphans(dns: Dns, c: Cluster, steps: seq<Step>)
    decreases |steps|
  {
    steps != [] ==> !Orphans(c, steps[0]) && NoOrphans(dns, Next(dns, c, steps[0]), steps[1..])
  }

  ghost predicate ZonesDisjoint(c: Cluster) {
    forall j, k :: j in c.zones && k in c.zones && j != k ==> !Overlap(c.zones[j].zone, c.zones[k].zone)
  }

  ghost predicate EndpointsOk(dns: Dns, c: Cluster) {
    forall k :: k in c.endpoints ==> SpecOk(dns, c.zones, k.namespace, c.endpoints[k].spec)
  }

  ghost predicate Inv(dns: Dns, c: Cluster) {
    ZonesDisjoint(c) && EndpointsOk(dns, c)
  }

  /** Endpoints stay valid while their zones stay and keep their names. */
  lemma ZonesKeepEndpoints(dns: Dns, c: Cluster, zones: map<ObjectKey, Zone>)
    requires EndpointsOk(dns, c)
    requires forall k :: k in c.endpoints ==>
               var z := ObjectKey(k.namespace, c.endpoints[k].spec.zone.value);
               z in zones && zones[z].zone == c.zones[z].zone
    ensures EndpointsOk(dns, c.(zones := zones))
  {
  }

  lemma WriteEndpointKeepsInv(dns: Dns, c: Cluster, key: ObjectKey, e: Endpoint)
    requires Inv(dns, c) && SpecOk(dns, c.zones, key.namespace, e.spec)
    ensures Inv(dns, c.(endpoints := c.endpoints[key := e]))
  {
  }

  /** Removing or marking endpoints changes no spec. */
  lemma FewerEndpointsKeepInv(dns: Dns, c: Cluster, d: Cluster)
    requires Inv(dns, c) && d.zones == c.zones
    requires forall k :: k in d.endpoints ==> k in c.endpoints && d.endpoints[k].spec == c.endpoints[k].spec
    ensures Inv(dns, d)
  {
  }

  /** Storing a zone that overlaps no other, under a fixed name, keeps everything; it may leave
      only if no endpoint names it. */
  lemma ZoneStoredKeepsInv(dns: Dns, c: Cluster, key: ObjectKey, zone: Zone)
    requires Inv(dns, c) && NoOverlap(c.zones, key, zone.zone) && (key in c.zones ==> zone.zone == c.zones[key].zone)
    requires zone.deleting && zone.finalizers == {} ==> Referring(c, key) == {}
    ensures Inv(dns, c.(zones := StoreZone(c.zones, key, zone)))
  {
    var zones := StoreZone(c.zones, key, zone);
    forall k | k in c.endpoints
      ensures var z := ObjectKey(k.namespace, c.endpoints[k].spec.zone.value);
              z in zones && zones[z].zone == c.zones[z].zone
    {
      var z := ObjectKey(k.namespace, c.endpoints[k].spec.zone.value);
      assert SpecOk(dns, c.zones, k.namespace, c.endpoints[k].spec);
      if z == key { assert k in Referring(c, key); }
    }
    ZonesKeepEndpoints(dns, c, zones);
    forall j, k | j in zones && k in zones && j != k ensures !Overlap(zones[j].zone, zones[k].zone) {
      assert j != key ==> j in c.zones && zones[j] == c.zones[j];
      assert k != key ==> k in c.zones && zones[k] == c.zones[k];
    }
  }

  lemma PassKeepsInv(dns: Dns, c: Cluster, key: ObjectKey)
    requires Inv(dns, c)
    ensures Inv(dns, ZonePass(c, key))
  {
    if key in c.zones {
      var zone := c.zones[key];
      if !zone.deleting {
        ZoneStoredKeepsInv(dns, c, key, zone.(finalizers := zone.finalizers + {CLEANUP}, status := HEALTHY));
      } else if CLEANUP in zone.finalizers {
        if Referring(c, key) != {} {
          FewerEndpointsKeepInv(dns, c, ZonePass(c, key));
        } else {
          ZoneStoredKeepsInv(dns, c, key, zone.(finalizers := zone.finalizers - {CLEANUP}));
        }
      }
    }
  }

  lemma PartKeepsInv(dns: Dns, c: Cluster, key: ObjectKey, done: set<ObjectKey>)
    requires Inv(dns, c)
    ensures Inv(dns, ZonePart(c, key, done))
  {
    if key in c.zones {
      var zone := c.zones[key];
      if zone.deleting {
        FewerEndpointsKeepInv(dns, c, ZonePart(c, key, done));
      } else {
        ZoneStoredKeepsInv(dns, c, key, zone.(finalizers := zone.finalizers + {CLEANUP}));
      }
    }
  }

  lemma NextKeepsInv(dns: Dns, c: Cluster, step: Step)
    requires Inv(dns, c) && !Orphans(c, step)
    ensures Inv(dns, Next(dns, c, step))
  {
    match step {
      case WriteEndpoint(key, e) =>
        if SpecOk(dns, c.zones, key.namespace, e.spec) && NoConflict(dns, c.endpoints, key, e.spec) {
          WriteEndpointKeepsInv(dns, c, key, e.(deleting := key in c.endpoints && c.endpoints[key].deleting));
        }
      case MarkEndpoint(key) =>
        if key in c.endpoints { FewerEndpointsKeepInv(dns, c, Next(dns, c, step)); }
      case DropEndpoint(_) => FewerEndpointsKeepInv(dns, c, Next(dns, c, step));
      case WriteZone(key, zone) =>
        if NoOverlap(c.zones, key, zone.zone) && (key in c.zones ==> zone.zone == c.zones[key].zone) {
          ZoneStoredKeepsInv(dns, c, key, zone.(deleting := key in c.zones && c.zones[key].deleting));
        }
      case DeleteZone(key) =>
        if key in c.zones { ZoneStoredKeepsInv(dns, c, key, c.zones[key].(deleting := true)); }
      case ReconcileZone(key) => PassKeepsInv(dns, c, key);
      case CutShort(key, done) => PartKeepsInv(dns, c, key, done);
    }
  }

  lemma {:induction false} RunKeepsInv(dns: Dns, c: Cluster, steps: seq<Step>)
    requires Inv(dns, c) && NoOrphans(dns, c, steps)
    ensures Inv(dns, Run(dns, c, steps))
    decreases |steps|
  {
    if steps != [] {
      NextKeepsInv(dns, c, steps[0]);
      RunKeepsInv(dns, Next(dns, c, steps[0]), steps[1..]);
    }
  }

  const EMPTY := Cluster(map[], map[])

  // ---- What every reachable state satisfies ----

  /** No DNS name lies in two zones of the cluster.  This holds of every run. */
  lemma NameInOneZone(dns: Dns, steps: seq<Step>, j: ObjectKey, k: ObjectKey, name: Name)
    ensures var c := Run(dns, EMPTY, steps);
            j in c.zones && k in c.zones &&
            IsSubDomain(c.zones[j].zone, name) && IsSubDomain(c.zones[k].zone, name) ==>
              j == k
  {
    RunKeepsDisjoint(dns, EMPTY, steps);
    var c := Run(dns, EMPTY, steps);
    if j in c.zones && k in c.zones { OverlapIffCommonName(c.zones[j].zone, c.zones[k].zone); }
  }

  lemma {:induction false} RunKeepsDisjoint(dns: Dns, c: Cluster, steps: seq<Step>)
    requires ZonesDisjoint(c)
    ensures ZonesDisjoint(Run(dns, c, steps))
    decreases |steps|
  {
    if steps != [] {
      NextKeepsDisjoint(dns, c, steps[0]);
      RunKeepsDisjoint(dns, Next(dns, c, steps[0]), steps[1..]);
    }
  }

  lemma NextKeepsDisjoint(dns: Dns, c: Cluster, step: Step)
    requires ZonesDisjoint(c)
    ensures ZonesDisjoint(Next(dns, c, step))
  {
    match step {
      case WriteZone(key, zone) =>
        if NoOverlap(c.zones, key, zone.zone) {
          StoredStayDisjoint(c, key, zone.(deleting := key in c.zones && c.zones[key].deleting));
        }
      case DeleteZone(key) =>
        if key in c.zones { StoredStayDisjoint(c, key, c.zones[key].(deleting := true)); }
      case ReconcileZone(key) =>
        if key in c.zones {
          var zone := c.zones[key];
          StoredStayDisjoint(c, key, zone.(finalizers := zone.finalizers + {CLEANUP}, status := HEALTHY));
          StoredStayDisjoint(c, key, zone.(finalizers := zone.finalizers - {CLEANUP}));
        }
      case CutShort(key, _) =>
        if key in c.zones {
          StoredStayDisjoint(c, key, c.zones[key].(finalizers := c.zones[key].finalizers + {CLEANUP}));
        }
      case _ =>
    }
  }

  lemma StoredStayDisjoint(c: Cluster, key: ObjectKey, zone: Zone)
    requires ZonesDisjoint(c) && (NoOverlap(c.zones, key, zone.zone) ||
               (key in c.zones && zone.zone == c.zones[key].zone))
    ensures ZonesDisjoint(c.(zones := StoreZone(c.zones, key, zone)))
  {
    var zones := StoreZone(c.zones, key, zone);
    forall j, k | j in zones && k in zones && j != k ensures !Overlap(zones[j].zone, zones[k].zone) {
      assert j != key ==> j in c.zones && zones[j] == c.zones[j];
      assert k != key ==> k in c.zones && zones[k] == c.zones[k];
    }
  }

  /** Two endpoints with one owner name are in one namespace and name one zone. */
  lemma OwnersShareZone(dns: Dns, c: Cluster, j: ObjectKey, k: ObjectKey)
    requires Inv(dns, c) && j in c.endpoints && k in c.endpoints
    requires Names.Canonical(c.endpoints[j].spec.dnsName) == Names.Canonical(c.endpoints[k].spec.dnsName)
    ensures j.namespace == k.namespace && c.endpoints[j].spec.zone == c.endpoints[k].spec.zone
  {
    var x, y := c.endpoints[j].spec, c.endpoints[k].spec;
    assert SpecOk(dns, c.zones, j.namespace, x) && SpecOk(dns, c.zones, k.namespace, y);
    var p, q := ObjectKey(j.namespace, x.zone.value), ObjectKey(k.namespace, y.zone.value);
    assert IsSubDomain(c.zones[q].zone, x.dnsName);
    OverlapIffCommonName(c.zones[p].zone, c.zones[q].zone);
  }

  // ---- Within a namespace, for every run ----

  /** What admission asks of an endpoint without regard to any zone. */
  ghost predicate Shaped(e: EndpointSpec) {
    e.zone.Some? && e.dnsName != [] && (!IsSimple(e.policy) ==> IsAddress(e.recordType))
  }

  /** The endpoints of a namespace are pairwise compatible. */
  ghost predicate NamespacesOk(dns: Dns, c: Cluster) {
    && (forall k :: k in c.endpoints ==> Shaped(c.endpoints[k].spec))
    && (forall j, k :: j in c.endpoints && k in c.endpoints && j != k && j.namespace == k.namespace ==>
          Compatible(dns, c.endpoints[j].spec, c.endpoints[k].spec))
  }

  /** Steps that write no endpoint only remove or mark some. */
  lemma OtherStepsKeepSpecs(dns: Dns, c: Cluster, step: Step)
    requires !step.WriteEndpoint?
    ensures var d := Next(dns, c, step);
            forall k :: k in d.endpoints ==> k in c.endpoints && d.endpoints[k].spec == c.endpoints[k].spec
  {
  }

  lemma WriteKeepsNamespaces(dns: Dns, c: Cluster, key: ObjectKey, e: Endpoint)
    requires NamespacesOk(dns, c) && Shaped(e.spec) && NoConflict(dns, c.endpoints, key, e.spec)
    ensures NamespacesOk(dns, c.(endpoints := c.endpoints[key := e]))
  {
    forall k | k in c.endpoints && k.namespace == key.namespace && k != key
      ensures Compatible(dns, e.spec, c.endpoints[k].spec) && Compatible(dns, c.endpoints[k].spec, e.spec)
    {
      ConflictIsIncompatible(dns, e.spec, c.endpoints[k].spec);
      CompatibleSymmetric(dns, e.spec, c.endpoints[k].spec);
    }
  }

  /** Every run keeps namespaces consistent, also one in which zones go while in use. */
  lemma {:induction false} RunKeepsNamespaces(dns: Dns, c: Cluster, steps: seq<Step>)
    requires NamespacesOk(dns, c)
    ensures NamespacesOk(dns, Run(dns, c, steps))
    decreases |steps|
  {
    if steps != [] {
      var d := Next(dns, c, steps[0]);
      match steps[0] {
        case WriteEndpoint(key, e) =>
          if d != c {
            WriteKeepsNamespaces(dns, c, key, e.(deleting := key in c.endpoints && c.endpoints[key].deleting));
          }
        case _ => OtherStepsKeepSpecs(dns, c, steps[0]);
      }
      RunKeepsNamespaces(dns, d, steps[1..]);
    }
  }

  /** The namespace rules, in every reachable state of every run: two endpoints of one owner differ
      in zone or type and neither is a CNAME, and no MX or NS record points to a CNAME owner,
      whichever record came first. */
  lemma NamespaceIsConsistent(dns: Dns, steps: seq<Step>, j: ObjectKey, k: ObjectKey)
    ensures var c := Run(dns, EMPTY, steps);
            j in c.endpoints && k in c.endpoints && j != k && j.namespace == k.namespace ==>
              var x, y := c.endpoints[j].spec, c.endpoints[k].spec;
              && (Names.Canonical(x.dnsName) == Names.Canonical(y.dnsName) ==>
                    && (x.zone != y.zone || ToUpper(x.recordType) != ToUpper(y.recordType))
                    && !HasType(x, "CNAME") && !HasType(y, "CNAME"))
              && (HasType(y, "CNAME") && (HasType(x, "MX") || HasType(x, "NS")) ==>
                    !PointsTo(dns, x, Names.Canonical(y.dnsName)))
  {
    RunKeepsNamespaces(dns, EMPTY, steps);
    var c := Run(dns, EMPTY, steps);
    if j in c.endpoints { HostRecordIsSimple(c.endpoints[j].spec); }
  }

  /** Across the cluster, in every state reached without leaving an orphan: two endpoints of one
      owner are in one namespace and one zone, so an owner has at most one record of each type and
      a CNAME is alone at its owner.  Each admission looked at one namespace only. */
  lemma RecordsAreConsistent(dns: Dns, steps: seq<Step>, j: ObjectKey, k: ObjectKey)
    requires NoOrphans(dns, EMPTY, steps)
    ensures var c := Run(dns, EMPTY, steps);
            j in c.endpoints && k in c.endpoints && j != k ==>
              var x, y := c.endpoints[j].spec, c.endpoints[k].spec;
              && (Names.Canonical(x.dnsName) == Names.Canonical(y.dnsName) ==>
                    && j.namespace == k.namespace && x.zone == y.zone
                    && ToUpper(x.recordType) != ToUpper(y.recordType) && !HasType(x, "CNAME") && !HasType(y, "CNAME"))
              && (j.namespace == k.namespace && HasType(y, "CNAME") && (HasType(x, "MX") || HasType(x, "NS")) ==>
                    !PointsTo(dns, x, Names.Canonical(y.dnsName)))
  {
    RunKeepsInv(dns, EMPTY, steps);
    NamespaceIsConsistent(dns, steps, j, k);
    var c := Run(dns, EMPTY, steps);
    if j in c.endpoints && k in c.endpoints &&
       Names.Canonical(c.endpoints[j].spec.dnsName) == Names.Canonical(c.endpoints[k].spec.dnsName)
    {
      OwnersShareZone(dns, c, j, k);
    }
  }

  /** MX and NS records are stored under Simple routing only. */
  lemma HostRecordIsSimple(e: EndpointSpec)
    requires !IsSimple(e.policy) ==> IsAddress(e.recordType)
    ensures HasType(e, "MX") || HasType(e, "NS") ==> IsSimple(e.policy)
  {
    EqualFoldIsToUpper(e.recordType, "A");
    EqualFoldIsToUpper(e.recordType, "AAAA");
    assert ToUpper("A")[0] == 'A' && ToUpper("AAAA")[0] == 'A';
  }

  // ---- Cleanup ----

  /** A live zone has been tended: it carries the cleanup finalizer besides its own and is Healthy, and
      nothing else has changed. */
  ghost predicate Tended(c: Cluster, key: ObjectKey, d: Cluster)
    requires key in c.zones
  {
    && d.endpoints == c.endpoints && d.zones.Keys == c.zones.Keys
    && (forall k :: k in c.zones && k != key ==> d.zones[k] == c.zones[k])
    && var before, after := c.zones[key], d.zones[key];
       && after.finalizers == before.finalizers + {"edgecdnx.com/zone-cleanup"} && after.status == "Healthy"
       && after.project == before.project && after.zone == before.zone && after.deleting == before.deleting
  }

  lemma LivePassTends(c: Cluster, key: ObjectKey)
    requires key in c.zones && !c.zones[key].deleting
    ensures Tended(c, key, ZonePass(c, key))
  {
  }

  /** The zone is live and protected by the cleanup finalizer. */
  ghost predicate Protected(c: Cluster, key: ObjectKey) {
    key in c.zones && !c.zones[key].deleting && CLEANUP in c.zones[key].finalizers
  }

  lemma {:induction false} ProtectionLasts(dns: Dns, c: Cluster, key: ObjectKey, steps: seq<Step>)
    requires Protected(c, key) && AllPatient(dns, c, steps) && DeleteZone(key) !in steps
    ensures Protected(Run(dns, c, steps), key)
    decreases |steps|
  {
    if steps != [] {
      assert steps[0] in steps;
      ProtectionLasts(dns, Next(dns, c, steps[0]), key, steps[1..]);
    }
  }

  /** Once a pass has tended a zone, deleting it is patient and orphans nothing, whatever refers to it
      and whatever patient steps came between: the zone stays, under deletion, with all endpoints. */
  lemma TendedZoneIsSafeToDelete(dns: Dns, c: Cluster, key: ObjectKey, steps: seq<Step>)
    requires key in c.zones && !c.zones[key].deleting
    requires AllPatient(dns, ZonePass(c, key), steps) && DeleteZone(key) !in steps
    ensures var d := Run(dns, ZonePass(c, key), steps);
            var after := Next(dns, d, DeleteZone(key));
            && Patient(d, DeleteZone(key)) && !Orphans(d, DeleteZone(key))
            && after.endpoints == d.endpoints && key in d.zones && key in after.zones
            && after.zones[key] == d.zones[key].(deleting := true)
  {
    LivePassTends(c, key);
    ProtectionLasts(dns, ZonePass(c, key), key, steps);
  }

  /** A zone that carries the cleanup finalizer leaves the store only when no endpoint of its
      namespace names it, neither before nor after the step. */
  lemma ZoneLeavesUnreferenced(dns: Dns, c: Cluster, step: Step, key: ObjectKey)
    requires Patient(c, step) && key in c.zones && CLEANUP in c.zones[key].finalizers &&
               key !in Next(dns, c, step).zones
    ensures step == ReconcileZone(key)
    ensures forall k :: k in c.endpoints && k.namespace == key.namespace ==> c.endpoints[k].spec.zone != Some(key.name)
    ensures Next(dns, c, step).endpoints == c.endpoints
  {
    NamedIff(c, key);
    match step {
      case WriteZone(_, _) =>
      case DeleteZone(_) =>
      case ReconcileZone(_) =>
      case _ =>
    }
  }

  /** A reconcile, completed or cut short, deletes or marks only endpoints that name its zone. */
  lemma PassSparesOthers(c: Cluster, key: ObjectKey, d: Cluster, k: ObjectKey)
    requires MayLeave(c, key, d) && k in c.endpoints
    requires k.namespace != key.namespace || c.endpoints[k].spec.zone != Some(key.name)
    ensures k in d.endpoints && d.endpoints[k] == c.endpoints[k]
  {
  }

  ghost function Live(c: Cluster, key: ObjectKey): set<ObjectKey> {
    set k | k in Referring(c, key) && !c.endpoints[k].deleting
  }

  /** One pass over a zone under deletion leaves no live endpoint that names it, and no step
      other than an admitted write brings one back. */
  lemma CleanupReachesZero(dns: Dns, c: Cluster, key: ObjectKey, steps: seq<Step>)
    requires key in c.zones && c.zones[key].deleting && CLEANUP in c.zones[key].finalizers
    requires forall s :: s in steps ==> !s.WriteEndpoint?
    ensures var d := Run(dns, ZonePass(c, key), steps);
            forall k ::
              k in d.endpoints && k.namespace == key.namespace && d.endpoints[k].spec.zone == Some(key.name) ==>
              d.endpoints[k].deleting
  {
    NoNewLive(dns, ZonePass(c, key), key, steps);
    var d := Run(dns, ZonePass(c, key), steps);
    forall k | k in d.endpoints && k.namespace == key.namespace && d.endpoints[k].spec.zone == Some(key.name)
      ensures d.endpoints[k].deleting
    {
      assert k in Referring(d, key) && k !in Live(d, key);
    }
  }

  lemma {:induction false} NoNewLive(dns: Dns, c: Cluster, key: ObjectKey, steps: seq<Step>)
    requires Live(c, key) == {} && forall s :: s in steps ==> !s.WriteEndpoint?
    ensures Live(Run(dns, c, steps), key) == {}
    decreases |steps|
  {
    if steps != [] {
      assert steps[0] in steps;
      var d := Next(dns, c, steps[0]);
      forall k | k in Referring(d, key) ensures d.endpoints[k].deleting {
        assert k in c.endpoints && d.endpoints[k].spec == c.endpoints[k].spec && k in Referring(c, key);
        assert k !in Live(c, key);
      }
      NoNewLive(dns, d, key, steps[1..]);
    }
  }

  /** The endpoints that name the zone and do not go at the first deletion. */
  ghost function HeldBack(c: Cluster, key: ObjectKey): set<ObjectKey> {
    set k | k in Referring(c, key) && (c.endpoints[k].finalizers != {} || c.endpoints[k].deleting)
  }

  lemma NamedIff(c: Cluster, key: ObjectKey)
    ensures Referring(c, key) == {} <==>
              forall k :: k in c.endpoints && k.namespace == key.namespace ==>
                c.endpoints[k].spec.zone != Some(key.name)
    ensures HeldBack(c, key) == {} <==> forall k ::
              k in c.endpoints && k.namespace == key.namespace && c.endpoints[k].spec.zone == Some(key.name) ==>
              c.endpoints[k].finalizers == {} && !c.endpoints[k].deleting
  {
    forall k | k in c.endpoints && k.namespace == key.namespace && c.endpoints[k].spec.zone == Some(key.name)
      ensures k in Referring(c, key)
    {
    }
    if HeldBack(c, key) == {} {
      forall k | k in Referring(c, key) ensures c.endpoints[k].finalizers == {} && !c.endpoints[k].deleting {
        assert k !in HeldBack(c, key);
      }
    }
  }

  lemma PassLeavesHeldBack(c: Cluster, key: ObjectKey)
    requires key in c.zones && c.zones[key].deleting && CLEANUP in c.zones[key].finalizers
    ensures Referring(ZonePass(c, key), key) == HeldBack(c, key)
  {
    var d := ZonePass(c, key);
    forall k ensures k in Referring(d, key) <==> k in HeldBack(c, key) {
      assert k in d.endpoints ==> k in c.endpoints && d.endpoints[k].spec == c.endpoints[k].spec;
      assert k in Referring(d, key) ==> k in Referring(c, key);
    }
  }

  /** Two passes over a zone under deletion remove it, and all endpoints that name it, if and only if
      it carries no other finalizer and none of the endpoints is held back. */
  lemma TwoPassesRemoveZone(c: Cluster, key: ObjectKey)
    requires key in c.zones && c.zones[key].deleting && CLEANUP in c.zones[key].finalizers
    ensures var d := ZonePass(ZonePass(c, key), key);
            (key !in d.zones && forall k ::
               k in d.endpoints && k.namespace == key.namespace ==> d.endpoints[k].spec.zone != Some(key.name)) <==>
            (c.zones[key].finalizers == {CLEANUP} && forall k ::
               k in c.endpoints && k.namespace == key.namespace && c.endpoints[k].spec.zone == Some(key.name) ==>
               c.endpoints[k].finalizers == {} && !c.endpoints[k].deleting)
  {
    NamedIff(c, key);
    NamedIff(ZonePass(ZonePass(c, key), key), key);
    PassLeavesHeldBack(c, key);
    var d := ZonePass(c, key);
    assert Referring(c, key) == {} ==> HeldBack(c, key) == {};
    assert c.zones[key].finalizers - {CLEANUP} == {} <==> c.zones[key].finalizers == {CLEANUP};
    if key in d.zones && HeldBack(c, key) == {} && Referring(c, key) != {} {
      assert d.zones == c.zones && Referring(d, key) == {};
    }
  }

  // ---- Exactly which runs stay consistent ----

  ghost predicate SharesOwner(c: Cluster) {
    exists j, k :: j in c.endpoints && k in c.endpoints && j.namespace != k.namespace &&
      Names.Canonical(c.endpoints[j].spec.dnsName) == Names.Canonical(c.endpoints[k].spec.dnsName)
  }

  /** Further steps that leave no orphan of their own can make two namespaces own one name. */
  ghost predicate CanClash(dns: Dns, c: Cluster) {
    exists more :: NoOrphans(dns, c, more) && SharesOwner(Run(dns, c, more))
  }

  /** What dedicated tenancy asks of a write: the project is that of the namespace. */
  ghost predicate InOwnProject(step: Step) {
    && (step.WriteZone? ==> step.zone.project == Some(step.key.namespace))
    && (step.WriteEndpoint? ==> step.endpoint.spec.project == Some(step.key.namespace))
  }

  ghost predicate AllInOwnProject(steps: seq<Step>) {
    forall s :: s in steps ==> InOwnProject(s)
  }

  /** In a consistent state, a step lets two namespaces come to own one name if and only if it
      leaves an orphan; writes that dedicated tenancy admits are enough for that. */
  lemma OwnersClashIffOrphaned(dns: Dns, c: Cluster, step: Step)
    requires Inv(dns, c)
    ensures CanClash(dns, Next(dns, c, step)) <==> Orphans(c, step)
    ensures var d := Next(dns, c, step);
            Orphans(c, step) ==>
              exists more :: NoOrphans(dns, d, more) && AllInOwnProject(more) && SharesOwner(Run(dns, d, more))
  {
    if Orphans(c, step) {
      OrphaningRemoves(dns, c, step);
      var k :| k in Referring(c, step.key);
      assert SpecOk(dns, c.zones, k.namespace, c.endpoints[k].spec);
      var more := OrphanMeetsTwin(dns, c, step.key, k);
    } else {
      NextKeepsInv(dns, c, step);
      ConsistentNeverClashes(dns, Next(dns, c, step));
    }
  }

  lemma ConsistentNeverClashes(dns: Dns, c: Cluster)
    requires Inv(dns, c)
    ensures !CanClash(dns, c) && !SharesOwner(c)
  {
    forall more | NoOrphans(dns, c, more) ensures !SharesOwner(Run(dns, c, more)) {
      RunKeepsInv(dns, c, more);
      OwnersDiffer(dns, Run(dns, c, more));
    }
    OwnersDiffer(dns, c);
  }

  lemma OwnersDiffer(dns: Dns, c: Cluster)
    requires Inv(dns, c)
    ensures !SharesOwner(c)
  {
    if SharesOwner(c) {
      var j, k :| j in c.endpoints && k in c.endpoints && j.namespace != k.namespace &&
        Names.Canonical(c.endpoints[j].spec.dnsName) == Names.Canonical(c.endpoints[k].spec.dnsName);
      OwnersShareZone(dns, c, j, k);
      assert false;
    }
  }

  lemma OrphaningRemoves(dns: Dns, c: Cluster, step: Step)
    requires ZonesDisjoint(c) && Orphans(c, step)
    ensures step.key in c.zones && Next(dns, c, step) == c.(zones := c.zones - {step.key})
  {
    assert NoOverlap(c.zones, step.key, c.zones[step.key].zone);
  }

  lemma UnusedNamespace(c: Cluster) returns (n: string)
    ensures forall x :: x in c.zones ==> x.namespace != n
    ensures forall x :: x in c.endpoints ==> x.namespace != n
  {
    n := LongerThanAll((set x | x in c.zones :: x.namespace) + (set x | x in c.endpoints :: x.namespace));
  }

  /** The zone that is gone is created again in a namespace not in use, and with it the record. */
  lemma OrphanMeetsTwin(dns: Dns, c: Cluster, key: ObjectKey, k: ObjectKey) returns (more: seq<Step>)
    requires ZonesDisjoint(c) && key in c.zones && k in Referring(c, key) &&
               SpecOk(dns, c.zones, k.namespace, c.endpoints[k].spec)
    ensures var d := c.(zones := c.zones - {key});
            && NoOrphans(dns, d, more) && AllPatient(dns, d, more) && AllInOwnProject(more)
            && SharesOwner(Run(dns, d, more))
  {
    var d := c.(zones := c.zones - {key});
    var unused := UnusedNamespace(c);
    var name, e := c.zones[key].zone, c.endpoints[k].(spec := c.endpoints[k].spec.(project := Some(unused)));
    var zoneKey, twin := ObjectKey(unused, key.name), ObjectKey(unused, k.name);
    var zone := Zone(Some(unused), name, {}, false, "");
    var first, second := WriteZone(zoneKey, zone), WriteEndpoint(twin, e);
    var d1 := d.(zones := d.zones[zoneKey := zone]);
    ZoneRecreated(dns, c, key, zoneKey, zone);
    SpecOkElsewhere(dns, c.zones, k.namespace, c.endpoints[k].spec, d1.zones, unused, e.spec);
    RecordAdmitted(dns, d1, twin, e);
    more := TwoStepsClash(dns, d, first, d1, second, k, twin);
  }

  lemma ZoneRecreated(dns: Dns, c: Cluster, key: ObjectKey, other: ObjectKey, zone: Zone)
    requires ZonesDisjoint(c) && key in c.zones && other !in c.zones && zone.zone == c.zones[key].zone && !zone.deleting
    ensures var d := c.(zones := c.zones - {key});
            Next(dns, d, WriteZone(other, zone)) == d.(zones := d.zones[other := zone])
  {
  }

  lemma RecordAdmitted(dns: Dns, c: Cluster, key: ObjectKey, e: Endpoint)
    requires SpecOk(dns, c.zones, key.namespace, e.spec)
    requires forall k :: k in c.endpoints ==> k.namespace != key.namespace
    ensures Next(dns, c, WriteEndpoint(key, e)).endpoints == c.endpoints[key := e.(deleting := false)]
  {
  }

  /** Admission of a record depends on its zone only through the zone's name, and not on its project. */
  lemma SpecOkElsewhere(dns: Dns, zones: map<ObjectKey, Zone>, namespace: string, e: EndpointSpec,
                        zones': map<ObjectKey, Zone>, namespace': string, e': EndpointSpec)
    requires SpecOk(dns, zones, namespace, e) && e' == e.(project := e'.project)
    requires var z, z' := ObjectKey(namespace, e.zone.value), ObjectKey(namespace', e.zone.value);
             z' in zones' && zones'[z'].zone == zones[z].zone
    ensures SpecOk(dns, zones', namespace', e')
  {
  }

  lemma TwoStepsClash(dns: Dns, d: Cluster, first: Step, d1: Cluster, second: Step, j: ObjectKey, k: ObjectKey)
    returns (more: seq<Step>)
    requires !Orphans(d, first) && Next(dns, d, first) == d1 && !Orphans(d1, second)
    requires Patient(d, first) && Patient(d1, second) && j.namespace != k.namespace
    requires var e := Next(dns, d1, second).endpoints; j in e && k in e && e[j].spec.dnsName == e[k].spec.dnsName
    ensures more == [first, second]
    ensures NoOrphans(dns, d, more) && AllPatient(dns, d, more) && SharesOwner(Run(dns, d, more))
  {
    more := [first, second];
    assert more[1..] == [second] && [second][1..] == [];
    assert Run(dns, d, more) == Run(dns, d1, [second]) == Next(dns, d1, second);
    assert NoOrphans(dns, d1, [second]) && AllPatient(dns, d1, [second]);
  }

  // ---- What keeps runs free of orphans ----

  /** A zone is deleted only once it carries the cleanup finalizer, and only the reconciler takes
      that finalizer away. */
  ghost predicate Patient(c: Cluster, step: Step) {
    match step
    case DeleteZone(key) => key in c.zones ==> CLEANUP in c.zones[key].finalizers
    case WriteZone(key, zone) => key in c.zones && CLEANUP in c.zones[key].finalizers ==> CLEANUP in zone.finalizers
    case _ => true
  }

  /** In addition, no endpoint is written into a zone that cleanup is done with but that some
      other finalizer still keeps. */
  ghost predicate Orderly(c: Cluster, step: Step) {
    && Patient(c, step)
    && (step.WriteEndpoint? && step.endpoint.spec.zone.Some? ==>
          var z := ObjectKey(step.key.namespace, step.endpoint.spec.zone.value);
          z in c.zones && c.zones[z].deleting ==> CLEANUP in c.zones[z].finalizers)
  }

  ghost predicate AllPatient(dns: Dns, c: Cluster, steps: seq<Step>)
    decreases |steps|
  {
    steps != [] ==> Patient(c, steps[0]) && AllPatient(dns, Next(dns, c, steps[0]), steps[1..])
  }

  ghost predicate AllOrderly(dns: Dns, c: Cluster, steps: seq<Step>)
    decreases |steps|
  {
    steps != [] ==> Orderly(c, steps[0]) && AllOrderly(dns, Next(dns, c, steps[0]), steps[1..])
  }

  /** A zone under deletion carries the cleanup finalizer or no endpoint names it. */
  ghost predicate CleanupHolds(c: Cluster) {
    forall k :: k in c.zones && c.zones[k].deleting ==> CLEANUP in c.zones[k].finalizers || Referring(c, k) == {}
  }

  lemma NextKeepsCleanup(dns: Dns, c: Cluster, step: Step)
    requires CleanupHolds(c) && Orderly(c, step)
    ensures !Orphans(c, step) && CleanupHolds(Next(dns, c, step))
  {
    var d := Next(dns, c, step);
    forall z | z in d.zones && d.zones[z].deleting && CLEANUP !in d.zones[z].finalizers ensures Referring(d, z) == {} {
      assert z in c.zones;
      forall k | k in d.endpoints ensures !Refers(k, d.endpoints[k], z) {
        if k in c.endpoints && d.endpoints[k].spec == c.endpoints[k].spec { assert k !in Referring(c, z); }
      }
    }
  }

  /** Orderly runs leave no orphan, so all of the above holds of them. */
  lemma {:induction false} OrderlyRunsLeaveNoOrphans(dns: Dns, c: Cluster, steps: seq<Step>)
    requires CleanupHolds(c) && AllOrderly(dns, c, steps)
    ensures NoOrphans(dns, c, steps) && CleanupHolds(Run(dns, c, steps))
    decreases |steps|
  {
    if steps != [] {
      NextKeepsCleanup(dns, c, steps[0]);
      OrderlyRunsLeaveNoOrphans(dns, Next(dns, c, steps[0]), steps[1..]);
    }
  }

  /** Zones are written with no finalizer but the cleanup one. */
  ghost predicate OneFinalizer(step: Step) {
    step.WriteZone? ==> step.zone.finalizers <= {CLEANUP}
  }

  ghost predicate ZonesPlain(c: Cluster) {
    forall k :: k in c.zones ==>
      c.zones[k].finalizers <= {CLEANUP} && (c.zones[k].deleting ==> CLEANUP in c.zones[k].finalizers)
  }

  lemma NextStaysPlain(dns: Dns, c: Cluster, step: Step)
    requires ZonesPlain(c) && Patient(c, step) && OneFinalizer(step)
    ensures !Orphans(c, step) && ZonesPlain(Next(dns, c, step))
  {
  }

  /** The plain lifecycle: if zones carry no other finalizer, patience suffices. */
  lemma {:induction false} PatientRunsLeaveNoOrphans(dns: Dns, c: Cluster, steps: seq<Step>)
    requires ZonesPlain(c) && AllPatient(dns, c, steps) && forall s :: s in steps ==> OneFinalizer(s)
    ensures NoOrphans(dns, c, steps) && ZonesPlain(Run(dns, c, steps))
    decreases |steps|
  {
    if steps != [] {
      assert steps[0] in steps;
      NextStaysPlain(dns, c, steps[0]);
      PatientRunsLeaveNoOrphans(dns, Next(dns, c, steps[0]), steps[1..]);
    }
  }

  const ZONE_A := ObjectKey("a", "z")
  const RECORD_A := ObjectKey("a", "e")

  /** A zone and a record that the zone admits. */
  ghost predicate Sample(dns: Dns, zone: Zone, e: Endpoint) {
    && zone.finalizers == {} && !zone.deleting && !e.deleting && e.spec.zone == Some("z")
    && zone.project == Some("a") && e.spec.project == Some("a")
    && SpecOk(dns, map[ZONE_A := zone], "a", e.spec)
  }

  /** The zone after cleanup, kept by its other finalizer. */
  ghost function Cleaned(zone: Zone): Zone {
    zone.(finalizers := {"other"}, status := HEALTHY, deleting := true)
  }

  /** Patience alone is not enough: a second finalizer keeps the zone admissible after the
      reconciler is done with it, a record written then is orphaned when the zone goes, and the
      patient run goes on to a state where two namespaces own one name. */
  lemma SecondFinalizerClashes(dns: Dns, zone: Zone, e: Endpoint) returns (steps: seq<Step>)
    requires Sample(dns, zone, e)
    ensures AllPatient(dns, EMPTY, steps) && AllInOwnProject(steps) && SharesOwner(Run(dns, EMPTY, steps))
  {
    var c4, c5 := Cluster(map[ZONE_A := Cleaned(zone)], map[]),
      Cluster(map[ZONE_A := Cleaned(zone)], map[RECORD_A := e]);
    var write, last := WriteEndpoint(RECORD_A, e), WriteZone(ZONE_A, zone);
    SpecOkElsewhere(dns, map[ZONE_A := zone], "a", e.spec, c4.zones, "a", e.spec);
    assert Next(dns, c4, write) == c5;
    assert RECORD_A in Referring(c5, ZONE_A) && ZonesDisjoint(c5);
    OrphaningRemoves(dns, c5, last);
    SpecOkElsewhere(dns, c4.zones, "a", e.spec, c5.zones, "a", e.spec);
    var rest := OrphanMeetsTwin(dns, c5, ZONE_A, RECORD_A);
    ghost var end := Run(dns, c5.(zones := c5.zones - {ZONE_A}), rest);
    steps := Preceded(dns, c5, last, end, rest);
    steps := Preceded(dns, c4, write, end, steps);
    steps := CleanedUp(dns, zone, end, steps);
  }

  /** A patient run to the zone after cleanup, put before `rest`. */
  lemma CleanedUp(dns: Dns, zone: Zone, end: Cluster, rest: seq<Step>) returns (steps: seq<Step>)
    requires zone.finalizers == {} && !zone.deleting && zone.project == Some("a") && AllInOwnProject(rest)
    requires var c := Cluster(map[ZONE_A := Cleaned(zone)], map[]); Run(dns, c, rest) == end && AllPatient(dns, c, rest)
    ensures Run(dns, EMPTY, steps) == end && AllPatient(dns, EMPTY, steps) && AllInOwnProject(steps)
  {
    var held := zone.(finalizers := {"other"});
    var marked := held.(finalizers := {"other"} + {CLEANUP}, status := HEALTHY);
    var s1, s2, s3, s4 := WriteZone(ZONE_A, held), ReconcileZone(ZONE_A), DeleteZone(ZONE_A), ReconcileZone(ZONE_A);
    var c1 := Next(dns, EMPTY, s1);
    assert c1 == Cluster(map[ZONE_A := held], map[]);
    var c2 := Next(dns, c1, s2);
    assert c2 == Cluster(map[ZONE_A := marked], map[]);
    var c3 := Next(dns, c2, s3);
    assert c3 == Cluster(map[ZONE_A := marked.(deleting := true)], map[]);
    assert marked.finalizers - {CLEANUP} == {"other"} && Referring(c3, ZONE_A) == {};
    assert Next(dns, c3, s4) == Cluster(map[ZONE_A := Cleaned(zone)], map[]);
    steps := Preceded(dns, c3, s4, end, rest);
    steps := Preceded(dns, c2, s3, end, steps);
    steps := Preceded(dns, c1, s2, end, steps);
    steps := Preceded(dns, EMPTY, s1, end, steps);
  }

  /** A patient run, within projects, with one step put before it. */
  lemma Preceded(dns: Dns, c: Cluster, step: Step, end: Cluster, steps: seq<Step>) returns (more: seq<Step>)
    requires Patient(c, step) && Run(dns, Next(dns, c, step), steps) == end &&
               AllPatient(dns, Next(dns, c, step), steps)
    requires InOwnProject(step) && AllInOwnProject(steps)
    ensures Run(dns, c, more) == end && AllPatient(dns, c, more) && AllInOwnProject(more)
  {
    more := [step] + steps;
    assert more[1..] == steps;
  }
}

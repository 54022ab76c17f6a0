/** The records the routing pass builds, as the DNSEndpoint webhook and tenancy see them. */
module GeneratedRecords {
  import opened Wrappers
  import opened Names
  import opened Api
  import opened DnsAdmission
  import opened Routing
  import opened RoutingPass
  import opened RoutingExact
  import Tenancy
  import DnsLifecycle

  // ---- Selection among the zones of a reachable cluster ----

  /** The listing shows zones of the cluster as they are stored. */
  ghost predicate ListedFrom(listing: Listing, zones: map<ObjectKey, Zone>) {
    forall x :: x in listing ==> x.0.name != "" && x.0 in zones && zones[x.0] == x.1
  }

  /** In every reachable cluster, the zone selected for a name is the only one listed that covers it. */
  lemma ReachableSelection(dns: Dns, steps: seq<DnsLifecycle.Step>, service: Service, listing: Listing, n: Name,
                           z: (ObjectKey, Zone))
    requires ListedFrom(listing, DnsLifecycle.Run(dns, DnsLifecycle.EMPTY, steps).zones)
    requires z in listing && Serves(service, z, n)
    ensures Selected(service, listing, n).0 == if Text(z.1.zone) != "" then z.0.name else ""
    ensures forall x :: x in listing && Serves(service, x, n) ==> x == z
  {
    forall x, y | x in listing && y in listing && Overlap(x.1.zone, y.1.zone) ensures x == y {
      OverlapIffCommonName(x.1.zone, y.1.zone);
      var name: Name :| IsSubDomain(x.1.zone, name) && IsSubDomain(y.1.zone, name);
      DnsLifecycle.NameInOneZone(dns, steps, x.0, y.0, name);
    }
    forall x ensures Covers(service, x, n) <==> Serves(service, x, n) { ServesIff(service, x, n); }
    ServesIff(service, z, n);
    SelectedIsTheCover(service, listing, n, z);
  }

  /** Hence the selection does not depend on the order of the list, nor on repetitions in it. */
  lemma SelectionIgnoresOrder(dns: Dns, steps: seq<DnsLifecycle.Step>, service: Service, listing: Listing,
                              other: Listing, n: Name)
    requires ListedFrom(listing, DnsLifecycle.Run(dns, DnsLifecycle.EMPTY, steps).zones)
    requires forall x :: x in listing <==> x in other
    ensures Selected(service, listing, n).0 == Selected(service, other, n).0
  {
    if z :| z in listing && Serves(service, z, n) {
      ReachableSelection(dns, steps, service, listing, n, z);
      ReachableSelection(dns, steps, service, other, n, z);
    } else {
      LongestZoneIsSelected(service, listing, n);
      LongestZoneIsSelected(service, other, n);
    }
  }

  // ---- Admission of what is built ----

  function AsResource(spec: EndpointSpec): Tenancy.Resource {
    Tenancy.Resource(spec.project, Tenancy.EndpointBody(spec.zone), false)
  }

  function EndpointKey(k: ObjectKey): Tenancy.Key {
    Tenancy.Key(Tenancy.DnsEndpoint, k.namespace, k.name)
  }

  function ZoneKey(k: ObjectKey): Tenancy.Key {
    Tenancy.Key(Tenancy.Zone, k.namespace, k.name)
  }

  /** The zones the pass listed are those stored, also as tenancy reads them. */
  ghost predicate Stored(listing: Listing, zones: map<ObjectKey, Zone>, store: Tenancy.Store) {
    forall z :: z in listing ==>
      && z.0.name != "" && z.0 in zones && zones[z.0] == z.1
      && ZoneKey(z.0) in store && store[ZoneKey(z.0)].project == z.1.project
  }

  /** The service's project exists, is not being deleted, and may place objects in its namespace. */
  ghost predicate Placed(scope: Tenancy.Scope, store: Tenancy.Store, service: Service) {
    && service.project.Some? && service.project.value != ""
    && scope.ValidateProject(service.key.namespace, service.project.value)
    && var project := Tenancy.Key(Tenancy.Project, service.key.namespace, service.project.value);
       project in store && !store[project].deleting
  }

  /** Apart from conflicts, the webhook accepts what is built for a name and its zone exactly when
      the service has a route selector and both names are valid. */
  lemma SpecOkIff(dns: Dns, zones: map<ObjectKey, Zone>, service: Service, p: Pair, z: (ObjectKey, Zone))
    requires z.0 in zones && zones[z.0] == z.1 && z.0.name != "" && Covers(service, z, p.0) && p.1 in ADDRESS_TYPES
    ensures SpecOk(dns, zones, service.key.namespace, SpecFor(service, p, z.0.name)) <==>
              service.selector.Some? && ValidName(dns, z.1.zone, false) && ValidName(dns, p.0, true)
  {
    assert z.0 == ObjectKey(service.key.namespace, z.0.name);
    assert ToLower(GEOLOCATION)[0] == 'g' && ToLower("Simple")[0] == 's';
    assert ToUpper("A") == "A" && ToUpper("AAAA") == "AAAA";
  }

  /** Tenancy accepts it exactly when the service itself is properly placed. */
  lemma TenancyIff(scope: Tenancy.Scope, listing: Listing, zones: map<ObjectKey, Zone>, store: Tenancy.Store,
                   service: Service, key: ObjectKey, p: Pair, z: (ObjectKey, Zone), before: Option<Tenancy.Resource>)
    requires Stored(listing, zones, store) && z in listing && Covers(service, z, p.0)
    requires key.namespace == service.key.namespace && (before.Some? ==> before.value.project == service.project)
    ensures Tenancy.Valid(scope, store, EndpointKey(key), AsResource(SpecFor(service, p, z.0.name)), before) <==>
              Placed(scope, store, service)
  {
    var r := AsResource(SpecFor(service, p, z.0.name));
    forall k | Tenancy.RefersTo(EndpointKey(key), r, k) ensures Tenancy.TargetOk(store, EndpointKey(key), r, k) {
      assert k == ZoneKey(z.0);
    }
  }

  /** The zone the pass selects is one of those listed, and covers the name. */
  lemma SelectedCovers(service: Service, listing: Listing, n: Name) returns (z: (ObjectKey, Zone))
    requires (forall x :: x in listing ==> x.0.name != "") && Selected(service, listing, n).0 != ""
    ensures z in listing && Covers(service, z, n) && z.0.name == Selected(service, listing, n).0
  {
    SelectedIsLongest(service, listing, n);
    z :| z in listing && Covers(service, z, n) && z.0.name == Selected(service, listing, n).0;
  }

  /** For a placed service with a route selector, valid names and valid covering zones, every record
      the pass builds passes the non-conflict checks of the webhook and the tenancy check, on
      creation and on every update that keeps the project. */
  lemma BuiltRecordsAreAdmissible(dns: Dns, scope: Tenancy.Scope, listing: Listing, zones: map<ObjectKey, Zone>,
                                  store: Tenancy.Store,
                                  service: Service, key: ObjectKey, p: Pair, before: Option<Tenancy.Resource>)
    requires Stored(listing, zones, store) && Placed(scope, store, service) && service.selector.Some?
    requires p in Pairs(DnsNames(service)) && Selected(service, listing, p.0).0 != ""
    requires forall n :: n in DnsNames(service) ==> ValidName(dns, n, true)
    requires forall z, n :: z in listing && n in DnsNames(service) && Covers(service, z, n) ==>
               ValidName(dns, z.1.zone, false)
    requires key.namespace == service.key.namespace && (before.Some? ==> before.value.project == service.project)
    ensures var spec := SpecFor(service, p, Selected(service, listing, p.0).0);
            && SpecOk(dns, zones, key.namespace, spec)
            && Tenancy.Valid(scope, store, EndpointKey(key), AsResource(spec), before)
  {
    PairsAreAddresses(DnsNames(service));
    var z := SelectedCovers(service, listing, p.0);
    SpecOkIff(dns, zones, service, p, z);
    TenancyIff(scope, listing, zones, store, service, key, p, z, before);
  }

  /** Hence every wanted record found in the store after an error-free pass is one the webhook
      would accept, whether the pass wrote it or found it up to date. */
  lemma PassLeavesAdmissibleRecords(d: Digests, m: Endpoints, listing: Listing, after: Endpoints,
                                    dns: Dns, zones: map<ObjectKey, Zone>, store: Tenancy.Store,
                                    service: Service, n: Name, t: string)
    requires RoutingAssumptions(d, m, service, listing) && IsPass(d, m, service, listing, after)
    requires Stored(listing, zones, store) && service.selector.Some? && Wants(service, n, t)
    requires ValidName(dns, n, true)
    requires forall z :: z in listing && Covers(service, z, n) ==> ValidName(dns, z.1.zone, false)
    ensures var key := KeyFor(d, service, (n, t));
            key in after && SpecOk(dns, zones, key.namespace, after[key].spec)
  {
    var key := KeyFor(d, service, (n, t));
    WantedRecordsExist(d, m, service, listing, after, n, t);
    var z :| z in listing && Serves(service, z, n) && after[key].spec == SpecFor(service, (n, t), z.0.name);
    ServesIff(service, z, n);
    SpecOkIff(dns, zones, service, (n, t), z);
  }
}

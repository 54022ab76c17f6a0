/** After an error-free routing pass the endpoints a service controls are exactly the wanted ones. */
module RoutingExact {
  import opened Wrappers
  import opened Names
  import opened Api
  import opened Routing
  import opened RoutingPass

  /** A recorded hash is the hash of the stored spec, less the zone, which is set after hashing. */
  ghost predicate Truthful(d: Digests, k: ObjectKey, e: Endpoint) {
    e.hash.Some? ==> e.hash.value == d.hash(Doc(k, e.spec.(zone := None), None))
  }

  ghost predicate AllTruthful(d: Digests, m: Endpoints) {
    forall k :: k in m ==> Truthful(d, k, m[k])
  }

  ghost predicate Matches(d: Digests, key: ObjectKey, e: Endpoint, service: Service, pair: Pair, zoneName: string) {
    e.spec == SpecFor(service, pair, zoneName) && ControlledBy(e, service) &&
      e.hash == Some(HashFor(d, key, service, pair))
  }

  /** One endpoint: what was skipped was already right, because its hash told the truth. */
  lemma EnsuredMatches(d: Digests, m: Endpoints, service: Service, key: ObjectKey, pair: Pair, zoneName: string)
    requires Collisionless(d) && AllTruthful(d, m) && Ensured(d, m, service, key, pair, zoneName).Some?
    ensures var x := Ensured(d, m, service, key, pair, zoneName).value;
            && key in x && Matches(d, key, x[key], service, pair, zoneName) && AllTruthful(d, x)
            && x.Keys == m.Keys + {key} && (forall k :: k in m && k != key ==> x[k] == m[k])
  {
    if key in m && UpToDate(d, key, m[key], service, pair, zoneName) {
      var mine, wanted := m[key].spec, SpecFor(service, pair, zoneName);
      assert Doc(key, mine.(zone := None), None) == Doc(key, wanted.(zone := None), None) by {
        assert d.hash(Doc(key, mine.(zone := None), None)) == HashFor(d, key, service, pair);
        assert wanted.(zone := None) == SpecFor(service, pair, "").(zone := None);
      }
      assert mine == wanted.(zone := None).(zone := Some(zoneName));
    }
  }

  /** Endpoints of one name are for one record. */
  ghost predicate KeysAgree(d: Digests, service: Service, pairs: seq<Pair>)
    requires DigestsFit(d) && AddressPairs(pairs)
  {
    forall p, q :: p in pairs && q in pairs && KeyFor(d, service, p) == KeyFor(d, service, q) ==> p == q
  }

  ghost predicate MatchAt(d: Digests, m: Endpoints, service: Service, zones: Listing, p: Pair)
    requires DigestsFit(d) && p.1 in ADDRESS_TYPES
  {
    var key, zoneName := KeyFor(d, service, p), Selected(service, zones, p.0).0;
    zoneName != "" && key in m && Matches(d, key, m[key], service, p, zoneName)
  }

  /** `x` is `m` with every wanted record matched and nothing else touched. */
  ghost predicate Matched(d: Digests, m: Endpoints, x: Endpoints, service: Service, zones: Listing, pairs: seq<Pair>)
    requires DigestsFit(d) && AddressPairs(pairs)
  {
    && (forall p :: p in pairs ==> MatchAt(d, x, service, zones, p)) && AllTruthful(d, x)
    && x.Keys == m.Keys + KeysOf(d, service, pairs)
    && (forall k :: k in m && k !in KeysOf(d, service, pairs) ==> x[k] == m[k])
  }

  lemma MatchKept(d: Digests, y: Endpoints, x: Endpoints, service: Service, zones: Listing, p: Pair)
    requires DigestsFit(d) && p.1 in ADDRESS_TYPES && MatchAt(d, y, service, zones, p)
    requires KeyFor(d, service, p) in x && x[KeyFor(d, service, p)] == y[KeyFor(d, service, p)]
    ensures MatchAt(d, x, service, zones, p)
  {
  }

  lemma MatchedGrows(d: Digests, m: Endpoints, y: Endpoints, x: Endpoints, service: Service, zones: Listing,
                     pairs: seq<Pair>, p: Pair)
    requires DigestsFit(d) && AddressPairs(pairs) && p.1 in ADDRESS_TYPES && Matched(d, m, y, service, zones, pairs)
    requires forall q :: q in pairs && KeyFor(d, service, q) == KeyFor(d, service, p) ==> q == p
    requires MatchAt(d, x, service, zones, p) && AllTruthful(d, x)
    requires x.Keys == y.Keys + {KeyFor(d, service, p)}
    requires forall k :: k in y && k != KeyFor(d, service, p) ==> x[k] == y[k]
    ensures AddressPairs(pairs + [p]) && Matched(d, m, x, service, zones, pairs + [p])
  {
    KeysGrow(d, service, pairs, p);
    MatchesStay(d, y, x, service, zones, pairs, p);
  }

  lemma MatchesStay(d: Digests, y: Endpoints, x: Endpoints, service: Service, zones: Listing, pairs: seq<Pair>,
                    p: Pair)
    requires DigestsFit(d) && AddressPairs(pairs) && p.1 in ADDRESS_TYPES && MatchAt(d, x, service, zones, p)
    requires forall q :: q in pairs && KeyFor(d, service, q) == KeyFor(d, service, p) ==> q == p
    requires forall q :: q in pairs ==> MatchAt(d, y, service, zones, q)
    requires forall k :: k in y && k != KeyFor(d, service, p) ==> k in x && x[k] == y[k]
    ensures forall q :: q in pairs ==> MatchAt(d, x, service, zones, q)
  {
    forall q | q in pairs ensures MatchAt(d, x, service, zones, q) {
      if q != p { MatchKept(d, y, x, service, zones, q); }
    }
  }

  /** The first loop: every wanted record matches, and nothing else is touched. */
  lemma {:induction false} AppliedMatches(d: Digests, m: Endpoints, service: Service, zones: Listing, pairs: seq<Pair>)
    requires DigestsFit(d) && AddressPairs(pairs) && Collisionless(d) && AllTruthful(d, m) &&
               KeysAgree(d, service, pairs)
    requires Applied(d, m, service, zones, pairs).Some?
    ensures Matched(d, m, Applied(d, m, service, zones, pairs).value, service, zones, pairs)
    decreases |pairs|
  {
    if pairs != [] {
      var last := |pairs| - 1;
      var front, p := pairs[..last], pairs[last];
      assert pairs == front + [p];
      AppliedMatches(d, m, service, zones, front);
      var y := Applied(d, m, service, zones, front).value;
      EnsuredMatches(d, y, service, KeyFor(d, service, p), p, Selected(service, zones, p.0).0);
      MatchedGrows(d, m, y, Applied(d, m, service, zones, pairs).value, service, zones, front, p);
    }
  }

  /** Names that agree after lowering are equal. */
  ghost predicate NamesAgree(names: seq<Name>) {
    forall m, n :: m in names && n in names && Canonical(m) == Canonical(n) ==> m == n
  }

  lemma KeysOfNamesAgree(d: Digests, service: Service, names: seq<Name>)
    requires ShortOk(d, names) && NamesAgree(names)
    ensures KeysAgree(d, service, Pairs(names))
  {
    var pairs := Pairs(names);
    PairsAreAddresses(names);
    forall p, q | p in pairs && q in pairs && KeyFor(d, service, p) == KeyFor(d, service, q) ensures p == q {
      EndpointNamesDiffer(d, service.key.name, names, p.0, q.0, p.1, q.1);
    }
  }

  /** Assumptions of the routing guarantees: collision-free digests, names that do not differ in
      case only, truthful annotations, and object names that are not empty. */
  ghost predicate RoutingAssumptions(d: Digests, m: Endpoints, service: Service, zones: Listing) {
    && Collisionless(d) && ShortOk(d, DnsNames(service)) && NamesAgree(DnsNames(service)) && AllTruthful(d, m)
    && forall z :: z in zones ==> z.0.name != ""
  }

  /** The service wants the record: one of its domain or aliases, of an address type. */
  ghost predicate Wants(service: Service, n: Name, t: string) {
    (n == service.domain || n in service.aliases) && (t == "A" || t == "AAAA")
  }

  lemma WantsIff(service: Service, n: Name, t: string)
    ensures Wants(service, n, t) <==> n in DnsNames(service) && t in ADDRESS_TYPES
  {
  }

  /** The endpoint of name `n` and type `t` is exactly the wanted one. */
  ghost predicate HasRecord(d: Digests, service: Service, zones: Listing, after: Endpoints, n: Name, t: string)
    requires DigestsFit(d) && t in ADDRESS_TYPES
  {
    var key := KeyFor(d, service, (n, t));
    && key in after && after[key].controller.Some? && after[key].controller.value.uid == service.uid
    && exists z :: z in zones && Serves(service, z, n) &&
         after[key].spec == EndpointSpec(service.project, n, "Geolocation", 10, t, [],
                                         service.selector, Some(z.0.name))
  }

  /** Every name of the service has its A and its AAAA record, with the service's project and
      selector and the covering zone, in an endpoint the service controls. */
  lemma WantedRecordsExist(d: Digests, m: Endpoints, service: Service, zones: Listing, after: Endpoints, n: Name,
                           t: string)
    requires RoutingAssumptions(d, m, service, zones) && IsPass(d, m, service, zones, after)
    requires Wants(service, n, t)
    ensures HasRecord(d, service, zones, after, n, t)
  {
    var names := DnsNames(service);
    var pairs := Pairs(names);
    KeysOfNamesAgree(d, service, names);
    AppliedMatches(d, m, service, zones, pairs);
    PairsAreAddresses(names);
    var p: Pair := (n, t);
    assert p in pairs;
    var x := Applied(d, m, service, zones, pairs).value;
    assert KeyFor(d, service, p) in KeysOf(d, service, pairs);
    assert after[KeyFor(d, service, p)] == x[KeyFor(d, service, p)];
    LongestZoneIsSelected(service, zones, n);
  }

  /** The assumption on names is exact: after an error-free pass all names have their records if and
      only if no two of them differ in case only. */
  lemma AllRecordsIffNamesAgree(d: Digests, m: Endpoints, service: Service, zones: Listing, after: Endpoints)
    requires Collisionless(d) && ShortOk(d, DnsNames(service)) && AllTruthful(d, m)
    requires (forall z :: z in zones ==> z.0.name != "") && IsPass(d, m, service, zones, after)
    ensures NamesAgree(DnsNames(service)) <==>
              forall n, t :: Wants(service, n, t) ==> HasRecord(d, service, zones, after, n, t)
  {
    var names := DnsNames(service);
    if NamesAgree(names) {
      forall n, t | Wants(service, n, t) ensures HasRecord(d, service, zones, after, n, t) {
        WantedRecordsExist(d, m, service, zones, after, n, t);
      }
    } else {
      var x, y :| x in names && y in names && Canonical(x) == Canonical(y) && x != y;
      OneRecordOfTwo(d, service, zones, after, x, y, "A");
      assert Wants(service, x, "A") && Wants(service, y, "A");
    }
  }

  lemma OneRecordOfTwo(d: Digests, service: Service, zones: Listing, after: Endpoints, m: Name, n: Name, t: string)
    requires DigestsFit(d) && t in ADDRESS_TYPES && Canonical(m) == Canonical(n) && m != n
    ensures !HasRecord(d, service, zones, after, m, t) || !HasRecord(d, service, zones, after, n, t)
  {
    assert KeyFor(d, service, (m, t)) == KeyFor(d, service, (n, t));
  }

  // ---- Everything else ----

  lemma {:induction false} AppliedElsewhere(d: Digests, m: Endpoints, service: Service, zones: Listing,
                                            pairs: seq<Pair>, k: ObjectKey)
    requires DigestsFit(d) && AddressPairs(pairs) && k !in KeysOf(d, service, pairs)
    ensures var x := Applied(d, m, service, zones, pairs);
            x.Some? ==> (k in x.value <==> k in m) && (k in m ==> x.value[k] == m[k])
    decreases |pairs|
  {
    if pairs != [] {
      var last := |pairs| - 1;
      assert pairs == pairs[..last] + [pairs[last]];
      KeysGrow(d, service, pairs[..last], pairs[last]);
      AppliedElsewhere(d, m, service, zones, pairs[..last], k);
    }
  }

  lemma FirstKeys(d: Digests, service: Service, pairs: seq<Pair>, n: nat)
    requires DigestsFit(d) && AddressPairs(pairs) && n <= |pairs|
    ensures AddressPairs(pairs[..n]) && KeysOf(d, service, pairs[..n]) <= KeysOf(d, service, pairs)
  {
  }

  /** However a pass ends, an endpoint the service does not want is left exactly as it was unless the
      service controls it, and none appears.  After an error-free pass, those it controls are gone
      or being deleted.  Nothing is assumed of names, digests or annotations. */
  lemma NothingElseChanges(d: Digests, m: Endpoints, service: Service, zones: Listing, after: Endpoints, k: ObjectKey)
    requires DigestsFit(d) && MayLeave(d, m, service, zones, after)
    requires forall n, t :: Wants(service, n, t) ==> k != KeyFor(d, service, (n, t))
    ensures k in after ==> k in m
    ensures k in m && (k.namespace != service.key.namespace || m[k].controller.None? ||
                       m[k].controller.value.uid != service.uid) ==>
              k in after && after[k] == m[k]
    ensures IsPass(d, m, service, zones, after) && k in m && k.namespace == service.key.namespace &&
            m[k].controller.Some? && m[k].controller.value.uid == service.uid ==>
              k !in after || after[k].deleting
  {
    var pairs := Pairs(DnsNames(service));
    PairsAreAddresses(DnsNames(service));
    forall p | p in pairs ensures KeyFor(d, service, p) != k {
      assert p == (p.0, p.1) && Wants(service, p.0, p.1);
    }
    AppliedElsewhere(d, m, service, zones, pairs, k);
    if PartlyApplied(d, m, service, zones, pairs, after) {
      var n: nat :| n <= |pairs| && Applied(d, m, service, zones, pairs[..n]) == Some(after);
      FirstKeys(d, service, pairs, n);
      AppliedElsewhere(d, m, service, zones, pairs[..n], k);
    }
  }

  // ---- When a pass succeeds ----

  /** The endpoint belongs to the project and may be controlled by the service. */
  ghost predicate Yours(e: Endpoint, service: Service) {
    && service.project.Some? && e.spec.project == service.project
    && (e.controller.Some? ==> e.controller.value.kind == "Service" && e.controller.value.name == service.key.name)
  }

  /** A UID identifies its object: what the service controls names it as its owner. */
  ghost predicate UidsAgree(m: Endpoints, service: Service) {
    forall k :: k in m && m[k].controller.Some? && m[k].controller.value.uid == service.uid ==>
      m[k].controller.value.kind == "Service" && m[k].controller.value.name == service.key.name
  }

  lemma EnsuredIff(d: Digests, m: Endpoints, service: Service, key: ObjectKey, pair: Pair, zoneName: string)
    requires UidsAgree(m, service) && key.namespace == service.key.namespace && service.project.Some?
    ensures var x := Ensured(d, m, service, key, pair, zoneName);
            && (x.Some? <==> (key in m ==> Yours(m[key], service)))
            && (x.Some? ==>
                  && UidsAgree(x.value, service)
                  && (forall k :: (k in x.value ==> Yours(x.value[k], service)) <==> (k in m ==> Yours(m[k], service))))
  {
  }

  /** Every record has a zone, and its endpoint is absent or the service's. */
  ghost predicate Achievable(d: Digests, m: Endpoints, service: Service, zones: Listing, p: Pair)
    requires DigestsFit(d) && p.1 in ADDRESS_TYPES
  {
    && (exists z :: z in zones && Serves(service, z, p.0) && Text(z.1.zone) != "")
    && (KeyFor(d, service, p) in m ==> Yours(m[KeyFor(d, service, p)], service))
  }

  lemma {:induction false} AppliedIff(d: Digests, m: Endpoints, service: Service, zones: Listing, pairs: seq<Pair>)
    requires DigestsFit(d) && AddressPairs(pairs) && UidsAgree(m, service)
    requires forall z :: z in zones ==> z.0.name != ""
    ensures var x := Applied(d, m, service, zones, pairs);
            && (x.Some? <==> forall p :: p in pairs ==> Achievable(d, m, service, zones, p))
            && (x.Some? ==>
                  && UidsAgree(x.value, service)
                  && (forall k :: (k in x.value ==> Yours(x.value[k], service)) <==> (k in m ==> Yours(m[k], service))))
    decreases |pairs|
  {
    if pairs != [] {
      var last := |pairs| - 1;
      var front, p := pairs[..last], pairs[last];
      assert pairs == front + [p];
      AppliedIff(d, m, service, zones, front);
      LongestZoneIsSelected(service, zones, p.0);
      var y, zoneName := Applied(d, m, service, zones, front), Selected(service, zones, p.0).0;
      if y.Some? && zoneName != "" {
        EnsuredIff(d, y.value, service, KeyFor(d, service, p), p, zoneName);
      }
      assert (forall q :: q in pairs ==> Achievable(d, m, service, zones, q)) <==>
             (forall q :: q in front ==> Achievable(d, m, service, zones, q)) && Achievable(d, m, service, zones, p);
    }
  }

  /** With every call answered a pass succeeds if and only if every name lies in a zone of the
      service's project and every wanted endpoint is absent or the service's to write. */
  lemma PassSucceedsIff(d: Digests, m: Endpoints, service: Service, zones: Listing)
    requires DigestsFit(d) && UidsAgree(m, service) && forall z :: z in zones ==> z.0.name != ""
    ensures Applied(d, m, service, zones, Pairs(DnsNames(service))).Some? <==>
              forall n, t :: Wants(service, n, t) ==> Achievable(d, m, service, zones, (n, t))
  {
    var pairs := Pairs(DnsNames(service));
    AppliedIff(d, m, service, zones, pairs);
    PairsAreAddresses(DnsNames(service));
    forall n, t | Wants(service, n, t) ensures (n, t) in pairs {
      var p: Pair := (n, t);
      assert p in pairs;
    }
    forall p | p in pairs ensures p == (p.0, p.1) && Wants(service, p.0, p.1) {}
  }

  lemma {:induction false} AppliedLeavesForeign(d: Digests, m: Endpoints, service: Service, zones: Listing,
                                                pairs: seq<Pair>, k: ObjectKey)
    requires DigestsFit(d) && AddressPairs(pairs) && k in m && !Yours(m[k], service)
    ensures var x := Applied(d, m, service, zones, pairs); x.Some? ==> k in x.value && x.value[k] == m[k]
    decreases |pairs|
  {
    if pairs != [] { AppliedLeavesForeign(d, m, service, zones, pairs[..|pairs| - 1], k); }
  }

  /** However a pass ends, a wanted endpoint of another project, or with a controller of another kind
      or name, is left exactly as it was. */
  lemma ForeignIsLeft(d: Digests, m: Endpoints, service: Service, zones: Listing, after: Endpoints, n: Name, t: string)
    requires DigestsFit(d) && MayLeave(d, m, service, zones, after)
    requires Wants(service, n, t)
    requires KeyFor(d, service, (n, t)) in m && !Yours(m[KeyFor(d, service, (n, t))], service)
    ensures var k := KeyFor(d, service, (n, t)); k in after && after[k] == m[k]
  {
    var pairs, k := Pairs(DnsNames(service)), KeyFor(d, service, (n, t));
    PairsAreAddresses(DnsNames(service));
    var p: Pair := (n, t);
    assert p in pairs && k in KeysOf(d, service, pairs);
    AppliedLeavesForeign(d, m, service, zones, pairs, k);
    if PartlyApplied(d, m, service, zones, pairs, after) {
      var i: nat :| i <= |pairs| && Applied(d, m, service, zones, pairs[..i]) == Some(after);
      AppliedLeavesForeign(d, m, service, zones, pairs[..i], k);
    }
  }

  // ---- Truthful annotations ----

  lemma EnsuredKeepsTruth(d: Digests, m: Endpoints, service: Service, key: ObjectKey, pair: Pair, zoneName: string)
    requires AllTruthful(d, m)
    ensures var x := Ensured(d, m, service, key, pair, zoneName); x.Some? ==> AllTruthful(d, x.value)
  {
    assert SpecFor(service, pair, zoneName).(zone := None) == SpecFor(service, pair, "").(zone := None);
  }

  /** Neither writing nor skipping an endpoint makes a recorded hash untrue. */
  lemma {:induction false} AppliedKeepsTruth(d: Digests, m: Endpoints, service: Service, zones: Listing,
                                             pairs: seq<Pair>)
    requires DigestsFit(d) && AddressPairs(pairs) && AllTruthful(d, m)
    ensures var x := Applied(d, m, service, zones, pairs); x.Some? ==> AllTruthful(d, x.value)
    decreases |pairs|
  {
    if pairs != [] {
      var last := |pairs| - 1;
      var p := pairs[last];
      AppliedKeepsTruth(d, m, service, zones, pairs[..last]);
      var y := Applied(d, m, service, zones, pairs[..last]);
      if y.Some? {
        EnsuredKeepsTruth(d, y.value, service, KeyFor(d, service, p), p, Selected(service, zones, p.0).0);
      }
    }
  }

  /** Every pass of every service keeps recorded hashes truthful, whether it succeeds, reports an
      error or is cut short, and without any assumption on names or digests. */
  lemma PassKeepsTruth(d: Digests, m: Endpoints, service: Service, zones: Listing, after: Endpoints)
    requires DigestsFit(d) && AllTruthful(d, m) && MayLeave(d, m, service, zones, after)
    ensures AllTruthful(d, after)
  {
    var pairs := Pairs(DnsNames(service));
    AppliedKeepsTruth(d, m, service, zones, pairs);
    if PartlyApplied(d, m, service, zones, pairs, after) {
      var n: nat :| n <= |pairs| && Applied(d, m, service, zones, pairs[..n]) == Some(after);
      AppliedKeepsTruth(d, m, service, zones, pairs[..n]);
    }
  }

  /** Other writers record no hash, and do not change the spec of an endpoint that has one. */
  ghost predicate OthersAct(m: Endpoints, after: Endpoints) {
    forall k :: k in after && after[k].hash.Some? ==>
      k in m && after[k].hash == m[k].hash && after[k].spec == m[k].spec
  }

  /** One step in the life of the endpoints: a pass of some service, or other writers. */
  datatype Turn = PassOf(service: Service, zones: Listing) | Others

  /** The states `ms` follow from each other by the turns. */
  ghost predicate History(d: Digests, ms: seq<Endpoints>, turns: seq<Turn>)
    requires DigestsFit(d)
  {
    && |ms| == |turns| + 1
    && forall i :: 0 <= i < |turns| ==>
         match turns[i]
         case PassOf(service, zones) => MayLeave(d, ms[i], service, zones, ms[i + 1])
         case Others => OthersAct(ms[i], ms[i + 1])
  }

  /** Truthful annotations are an invariant: they hold in every state of every history that
      starts without endpoints, so the guarantees for a single pass apply to each of its passes. */
  lemma {:induction false} HistoryIsTruthful(d: Digests, ms: seq<Endpoints>, turns: seq<Turn>, i: nat)
    requires DigestsFit(d) && History(d, ms, turns) && ms[0] == map[] && i < |ms|
    ensures AllTruthful(d, ms[i])
  {
    if i > 0 {
      HistoryIsTruthful(d, ms, turns, i - 1);
      match turns[i - 1]
      case PassOf(service, zones) => PassKeepsTruth(d, ms[i - 1], service, zones, ms[i]);
      case Others => assert OthersAct(ms[i - 1], ms[i]);
    }
  }

  // ---- The second pass ----

  /** No stale endpoint is held by a finalizer or already being deleted. */
  ghost predicate StaleGoes(m: Endpoints, service: Service, desired: set<ObjectKey>) {
    forall k :: k in Stale(m, service, desired) ==> m[k].finalizers == {} && !m[k].deleting
  }

  /** What stays stale after a pass is what could not go at once. */
  lemma StaleAfter(d: Digests, m: Endpoints, service: Service, zones: Listing, after: Endpoints)
    requires DigestsFit(d) && IsPass(d, m, service, zones, after)
    ensures var desired := KeysOf(d, service, Pairs(DnsNames(service)));
            Stale(after, service, desired) == {} <==> StaleGoes(m, service, desired)
  {
    var pairs := Pairs(DnsNames(service));
    var desired, x := KeysOf(d, service, pairs), Applied(d, m, service, zones, pairs).value;
    forall k | k !in desired ensures (k in x <==> k in m) && (k in m ==> x[k] == m[k]) {
      AppliedElsewhere(d, m, service, zones, pairs, k);
    }
    forall k | k in Stale(m, service, desired) ensures k in Stale(x, service, desired) && x[k] == m[k] {}
    forall k | k in Stale(m, service, desired) && (m[k].finalizers != {} || m[k].deleting)
      ensures k in Stale(after, service, desired)
    {
    }
  }

  /** Two names that differ in case only want different specs of one endpoint, so one is never settled. */
  lemma SettledNamesAgree(d: Digests, after: Endpoints, service: Service, zones: Listing, m: Name, n: Name)
    requires DigestsFit(d) && Collisionless(d) && Canonical(m) == Canonical(n)
    requires "A" in ADDRESS_TYPES && PairSettled(d, after, service, zones, (m, "A")) &&
               PairSettled(d, after, service, zones, (n, "A"))
    ensures m == n
  {
    var p, q := (m, "A"), (n, "A");
    var key := KeyFor(d, service, p);
    assert key == KeyFor(d, service, q);
    assert HashFor(d, key, service, p) == HashFor(d, key, service, q);
    assert Doc(key, SpecFor(service, p, "").(zone := None), None) ==
           Doc(key, SpecFor(service, q, "").(zone := None), None);
  }

  lemma MatchedIsSettled(d: Digests, m: Endpoints, service: Service, zones: Listing, after: Endpoints, p: Pair)
    requires RoutingAssumptions(d, m, service, zones) && IsPass(d, m, service, zones, after)
    requires p in Pairs(DnsNames(service))
    ensures PairSettled(d, after, service, zones, p)
  {
    var pairs := Pairs(DnsNames(service));
    KeysOfNamesAgree(d, service, DnsNames(service));
    AppliedMatches(d, m, service, zones, pairs);
    var x := Applied(d, m, service, zones, pairs).value;
    assert MatchAt(d, x, service, zones, p);
    assert KeyFor(d, service, p) in KeysOf(d, service, pairs);
    assert after[KeyFor(d, service, p)] == x[KeyFor(d, service, p)];
    SelectedIsLongest(service, zones, p.0);
  }

  /** The state after an error-free pass is settled if and only if no two names differ in case only and
      every stale endpoint could go at once.  By the contract of `RoutingReconciler.Reconcile` these
      are exactly the states in which a second pass writes nothing. */
  lemma PassSettles(d: Digests, m: Endpoints, service: Service, zones: Listing, after: Endpoints)
    requires Collisionless(d) && ShortOk(d, DnsNames(service)) && AllTruthful(d, m)
    requires (forall z :: z in zones ==> z.0.name != "") && IsPass(d, m, service, zones, after)
    ensures Settled(d, after, service, zones, Pairs(DnsNames(service))) <==>
              NamesAgree(DnsNames(service)) && StaleGoes(m, service, KeysOf(d, service, Pairs(DnsNames(service))))
  {
    var names := DnsNames(service);
    StaleAfter(d, m, service, zones, after);
    if NamesAgree(names) {
      forall p | p in Pairs(names) ensures PairSettled(d, after, service, zones, p) {
        MatchedIsSettled(d, m, service, zones, after, p);
      }
    } else if Settled(d, after, service, zones, Pairs(names)) {
      PairsAreAddresses(names);
      var x, y :| x in names && y in names && Canonical(x) == Canonical(y) && x != y;
      assert (x, "A") in Pairs(names) && (y, "A") in Pairs(names);
      SettledNamesAgree(d, after, service, zones, x, y);
      assert false;
    }
  }
}

/** One pass of the service routing reconciler, and what it achieves. */
module RoutingPass {
  import opened Wrappers
  import opened Names
  import opened Api
  import opened Routing

  type Endpoints = map<ObjectKey, Endpoint>
  type Listing = seq<(ObjectKey, Zone)>

  /** One record the service wants: a name and an address type. */
  type Pair = (Name, string)

  function DnsNames(service: Service): seq<Name> {
    [service.domain] + service.aliases
  }

  /** Every name with every address type, in the order of the nested loops. */
  function Pairs(names: seq<Name>): (pairs: seq<Pair>)
    ensures forall p :: p in pairs ==> p.1 in ADDRESS_TYPES
  {
    if names == [] then []
    else var last := |names| - 1; Pairs(names[..last]) + [(names[last], "A"), (names[last], "AAAA")]
  }

  function OwnerOf(service: Service): Owner {
    Owner("Service", service.key.name, service.uid)
  }

  predicate ControlledBy(e: Endpoint, service: Service) {
    e.controller.Some? && e.controller.value.uid == service.uid
  }

  /** An owner of the same kind and name is replaced; any other controller is an error. */
  predicate CanControl(e: Endpoint, service: Service) {
    e.controller.None? || (e.controller.value.kind == "Service" && e.controller.value.name == service.key.name)
  }

  function SpecFor(service: Service, pair: Pair, zoneName: string): EndpointSpec {
    EndpointSpec(service.project, pair.0, GEOLOCATION, DEFAULT_TTL, pair.1, [], service.selector, Some(zoneName))
  }

  function HashFor(d: Digests, key: ObjectKey, service: Service, pair: Pair): string {
    d.hash(Doc(key, SpecFor(service, pair, "").(zone := None), None))
  }

  /** The names fit: every short digest has 12 digits. */
  ghost predicate DigestsFit(d: Digests) {
    forall n: Name :: |d.short(n)| == 12
  }

  ghost function KeyFor(d: Digests, service: Service, pair: Pair): ObjectKey
    requires DigestsFit(d) && pair.1 in ADDRESS_TYPES
  {
    SuffixShape(d, pair.0, pair.1);
    ObjectKey(service.key.namespace, EndpointName(d, service.key.name, pair.0, pair.1))
  }

  predicate UpToDate(d: Digests, key: ObjectKey, e: Endpoint, service: Service, pair: Pair, zoneName: string) {
    e.hash == Some(HashFor(d, key, service, pair)) && ControlledBy(e, service) && e.spec.zone == Some(zoneName)
  }

  /** The get, then create, skip or update of one endpoint; `None` is an error. */
  function Ensured(d: Digests, m: Endpoints, service: Service, key: ObjectKey, pair: Pair,
                   zoneName: string): Option<Endpoints> {
    var hash := HashFor(d, key, service, pair);
    var spec, owner := SpecFor(service, pair, zoneName), Some(OwnerOf(service));
    if key !in m then Some(m[key := Endpoint(spec, Some(hash), owner, {}, false)])
    else
      var current := m[key];
      if !SameProject(service.key.namespace, service.project, key.namespace, current.spec.project) then None
      else if UpToDate(d, key, current, service, pair, zoneName) then Some(m)
      else if !CanControl(current, service) then None
      else Some(m[key := current.(spec := spec, hash := Some(hash), controller := owner)])
  }

  ghost predicate AddressPairs(pairs: seq<Pair>) {
    forall p :: p in pairs ==> p.1 in ADDRESS_TYPES
  }

  /** The first loop: all wanted records in turn. */
  ghost function Applied(d: Digests, m: Endpoints, service: Service, zones: Listing,
                         pairs: seq<Pair>): Option<Endpoints>
    requires DigestsFit(d) && AddressPairs(pairs)
  {
    if pairs == [] then Some(m)
    else
      var last := |pairs| - 1;
      match Applied(d, m, service, zones, pairs[..last])
      case None => None
      case Some(x) =>
        var zoneName := Selected(service, zones, pairs[last].0).0;
        if zoneName == "" then None else Ensured(d, x, service, KeyFor(d, service, pairs[last]), pairs[last], zoneName)
  }

  ghost function KeysOf(d: Digests, service: Service, pairs: seq<Pair>): set<ObjectKey>
    requires DigestsFit(d) && AddressPairs(pairs)
  {
    set p | p in pairs :: KeyFor(d, service, p)
  }

  ghost function Stale(m: Endpoints, service: Service, desired: set<ObjectKey>): set<ObjectKey> {
    set k | k in m && k.namespace == service.key.namespace && ControlledBy(m[k], service) && k !in desired
  }

  lemma {:induction false} PairsAreAddresses(names: seq<Name>)
    ensures AddressPairs(Pairs(names))
    ensures forall p: Pair :: p in Pairs(names) <==> p.0 in names && p.1 in ADDRESS_TYPES
  {
    if names != [] {
      var last := |names| - 1;
      PairsAreAddresses(names[..last]);
      assert names == names[..last] + [names[last]];
    }
  }

  ghost predicate PairSettled(d: Digests, m: Endpoints, service: Service, zones: Listing, p: Pair)
    requires DigestsFit(d) && p.1 in ADDRESS_TYPES
  {
    var key, zoneName := KeyFor(d, service, p), Selected(service, zones, p.0).0;
    && zoneName != "" && key in m && UpToDate(d, key, m[key], service, p, zoneName)
    && SameProject(service.key.namespace, service.project, key.namespace, m[key].spec.project)
  }

  ghost predicate AllSettled(d: Digests, m: Endpoints, service: Service, zones: Listing, pairs: seq<Pair>)
    requires DigestsFit(d) && AddressPairs(pairs)
  {
    forall p :: p in pairs ==> PairSettled(d, m, service, zones, p)
  }

  /** Nothing to do: every wanted record is up to date and no other endpoint is controlled. */
  ghost predicate Settled(d: Digests, m: Endpoints, service: Service, zones: Listing, pairs: seq<Pair>)
    requires DigestsFit(d) && AddressPairs(pairs)
  {
    AllSettled(d, m, service, zones, pairs) && Stale(m, service, KeysOf(d, service, pairs)) == {}
  }

  /** The result of an error-free pass. */
  ghost predicate IsPass(d: Digests, m: Endpoints, service: Service, zones: Listing, after: Endpoints)
    requires DigestsFit(d)
  {
    var pairs := Pairs(DnsNames(service));
    && AddressPairs(pairs)
    && Applied(d, m, service, zones, pairs).Some?
    && var x := Applied(d, m, service, zones, pairs).value;
       after == DeleteEndpoints(x, Stale(x, service, KeysOf(d, service, pairs)))
  }

  /** The records of some first pairs have been applied, and no more. */
  ghost predicate PartlyApplied(d: Digests, m: Endpoints, service: Service, zones: Listing, pairs: seq<Pair>,
                                after: Endpoints)
    requires DigestsFit(d) && AddressPairs(pairs)
  {
    exists n: nat :: n <= |pairs| && Applied(d, m, service, zones, pairs[..n]) == Some(after)
  }

  /** All records have been applied, and the stale endpoints `ks` deleted. */
  ghost predicate PartlyDeleted(d: Digests, m: Endpoints, service: Service, zones: Listing, pairs: seq<Pair>,
                                ks: set<ObjectKey>, after: Endpoints)
    requires DigestsFit(d) && AddressPairs(pairs)
  {
    var applied := Applied(d, m, service, zones, pairs);
    && applied.Some? && ks <= Stale(applied.value, service, KeysOf(d, service, pairs))
    && after == DeleteEndpoints(applied.value, ks)
  }

  /** What a pass may leave behind, whether it succeeds, reports an error of its own, or is cut
      short by a failed call. */
  ghost predicate MayLeave(d: Digests, m: Endpoints, service: Service, zones: Listing, after: Endpoints)
    requires DigestsFit(d)
  {
    var pairs := Pairs(DnsNames(service));
    && AddressPairs(pairs)
    && (PartlyApplied(d, m, service, zones, pairs, after) ||
       exists ks :: PartlyDeleted(d, m, service, zones, pairs, ks, after))
  }

  /** The reconciler and the API server it talks to; `outcome` says how each call ends. */
  class RoutingReconciler {
    const outcome: nat -> Outcome
    var endpoints: Endpoints
    var calls: nat
    var writes: nat

    ghost predicate Reliable() {
      forall n: nat :: outcome(n) == Answered
    }

    constructor (endpoints: Endpoints, outcome: nat -> Outcome)
      ensures this.endpoints == endpoints && this.outcome == outcome && writes == 0
    {
      this.outcome, this.endpoints, calls, writes := outcome, endpoints, 0, 0;
    }

    method Call() returns (o: Outcome)
      modifies this`calls
      ensures Reliable() ==> o == Answered
    {
      o, calls := outcome(calls), calls + 1;
    }

    /** A create, update or delete call with its effect. */
    method Write(after: Endpoints) returns (ok: bool)
      modifies this`endpoints, this`calls, this`writes
      ensures ok ==> endpoints == after
      ensures endpoints == after || endpoints == old(endpoints)
      ensures Reliable() ==> ok
      ensures writes == old(writes) + 1
    {
      var o := Call();
      writes := writes + 1;
      if o != Refused {
        endpoints := after;
      }
      ok := o == Answered;
    }

    /** The body of the inner loop. */
    method EnsureEndpoint(d: Digests, service: Service, key: ObjectKey, dnsName: Name, recordType: string,
                          zoneName: string)
      returns (ok: bool)
      modifies this`endpoints, this`calls, this`writes
      ensures var e := Ensured(d, old(endpoints), service, key, (dnsName, recordType), zoneName);
              && (ok ==> e == Some(endpoints))
              && (!ok ==> endpoints == old(endpoints) || e == Some(endpoints))
              && (!ok && Reliable() ==> e.None?)
      ensures key in old(endpoints) &&
              UpToDate(d, key, old(endpoints)[key], service, (dnsName, recordType), zoneName) ==>
                endpoints == old(endpoints) && writes == old(writes)
      ensures writes >= old(writes) && (writes == old(writes) ==> endpoints == old(endpoints))
      ensures ok && writes == old(writes) ==>
                && key in old(endpoints)
                && UpToDate(d, key, old(endpoints)[key], service, (dnsName, recordType), zoneName)
                && SameProject(service.key.namespace, service.project, key.namespace, old(endpoints)[key].spec.project)
    {
      var builder := new EndpointBuilder(key);
      builder.WithService(service, dnsName, recordType);
      var desired, hash := builder.Build(d);
      desired := desired.(spec := desired.spec.(zone := Some(zoneName)));
      assert hash == HashFor(d, key, service, (dnsName, recordType));
      assert desired.spec == SpecFor(service, (dnsName, recordType), zoneName);
      var o := Call();
      if o != Answered {
        return false;
      }
      if key !in endpoints {
        ok := Write(endpoints[key := desired.(controller := Some(OwnerOf(service)))]);
        return;
      }
      var current := endpoints[key];
      if !SameProject(service.key.namespace, service.project, key.namespace, current.spec.project) {
        return false;
      }
      if current.hash.Some? && current.hash.value == hash && ControlledBy(current, service)
         && current.spec.zone.Some? && current.spec.zone.value == zoneName
      {
        return true;
      }
      current := current.(spec := desired.spec, hash := desired.hash);
      if !CanControl(current, service) {
        return false;
      }
      ok := Write(endpoints[key := current.(controller := Some(OwnerOf(service)))]);
    }

    /** Deletes the controlled endpoints that are no longer wanted. */
    method DeleteStale(service: Service, desired: set<ObjectKey>) returns (ok: bool)
      modifies this`endpoints, this`calls, this`writes
      ensures ok ==> endpoints == DeleteEndpoints(old(endpoints), Stale(old(endpoints), service, desired))
      ensures !ok ==> !Reliable() && exists ks ::
                ks <= Stale(old(endpoints), service, desired) && endpoints == DeleteEndpoints(old(endpoints), ks)
      ensures Stale(old(endpoints), service, desired) == {} ==> endpoints == old(endpoints) && writes == old(writes)
      ensures writes >= old(writes) && (ok && writes == old(writes) ==> Stale(old(endpoints), service, desired) == {})
    {
      var listed := endpoints;
      ghost var stale := Stale(listed, service, desired);
      ghost var done := {};
      var o := Call();
      if o != Answered {
        assert endpoints == DeleteEndpoints(listed, done);
        return false;
      }
      var left := listed.Keys;
      while left != {}
        invariant left <= listed.Keys && done == stale - left && endpoints == DeleteEndpoints(listed, done)
        invariant stale == {} ==> endpoints == listed && writes == old(writes)
        invariant writes >= old(writes) && (writes == old(writes) ==> done == {})
        decreases left
      {
        var k :| k in left;
        left := left - {k};
        if k.namespace != service.key.namespace || !ControlledBy(listed[k], service) {
          assert done == stale - left;
          continue;
        }
        if k in desired {
          assert done == stale - left;
          continue;
        }
        assert k in stale;
        DeleteOneMore(listed, done, k);
        var deleted := Write(DeleteEndpoint(endpoints, k));
        if !deleted {
          assert endpoints == DeleteEndpoints(listed, done + {k}) || endpoints == DeleteEndpoints(listed, done);
          return false;
        }
        done := done + {k};
        assert done == stale - left;
      }
      assert done == stale;
      ok := true;
    }

    /** One record of a name.  `before` are the endpoints at the start of the pass and `pairs` the
        records applied since. */
    method EnsureRecord(d: Digests, service: Service, zones: Listing, dnsName: Name, recordType: string,
                        zoneName: string, ghost before: Endpoints, ghost pairs: seq<Pair>)
      returns (ok: bool, key: ObjectKey)
      requires DigestsFit(d) && AddressPairs(pairs) && Applied(d, before, service, zones, pairs) == Some(endpoints)
      requires recordType in ADDRESS_TYPES && zoneName == Selected(service, zones, dnsName).0 && zoneName != ""
      modifies this`endpoints, this`calls, this`writes
      ensures AddressPairs(pairs + [(dnsName, recordType)]) && key == KeyFor(d, service, (dnsName, recordType))
      ensures var applied := Applied(d, before, service, zones, pairs + [(dnsName, recordType)]);
              && (ok ==> applied == Some(endpoints))
              && (!ok ==> endpoints == old(endpoints) || applied == Some(endpoints))
              && (!ok && Reliable() ==> applied.None?)
      ensures PairSettled(d, old(endpoints), service, zones, (dnsName, recordType)) ==>
                endpoints == old(endpoints) && writes == old(writes)
      ensures writes >= old(writes) && (writes == old(writes) ==> endpoints == old(endpoints))
      ensures ok && writes == old(writes) ==> PairSettled(d, old(endpoints), service, zones, (dnsName, recordType))
    {
      AppliedOneMore(d, before, service, zones, pairs, (dnsName, recordType));
      SuffixShape(d, dnsName, recordType);
      key := ObjectKey(service.key.namespace, EndpointName(d, service.key.name, dnsName, recordType));
      ok := EnsureEndpoint(d, service, key, dnsName, recordType, zoneName);
    }

    /** The body of the outer loop: one name, both address types. */
    method EnsureName(d: Digests, service: Service, zones: Listing, dnsName: Name, ghost before: Endpoints,
                      ghost pairs: seq<Pair>)
      returns (ok: bool, keys: set<ObjectKey>)
      requires DigestsFit(d) && AddressPairs(pairs) && Applied(d, before, service, zones, pairs) == Some(endpoints)
      modifies this`endpoints, this`calls, this`writes
      ensures AddressPairs(WithName(pairs, dnsName))
      ensures ok ==> Applied(d, before, service, zones, WithName(pairs, dnsName)) == Some(endpoints)
      ensures ok ==> keys == {KeyFor(d, service, (dnsName, "A")), KeyFor(d, service, (dnsName, "AAAA"))}
      ensures !ok ==> PartlyApplied(d, before, service, zones, WithName(pairs, dnsName), endpoints)
      ensures !ok && Reliable() ==> Applied(d, before, service, zones, WithName(pairs, dnsName)).None?
      ensures PairSettled(d, old(endpoints), service, zones, (dnsName, "A")) &&
              PairSettled(d, old(endpoints), service, zones, (dnsName, "AAAA")) ==>
                endpoints == old(endpoints) && writes == old(writes)
      ensures writes >= old(writes) && (writes == old(writes) ==> endpoints == old(endpoints))
      ensures ok && writes == old(writes) ==>
                PairSettled(d, old(endpoints), service, zones, (dnsName, "A")) &&
                PairSettled(d, old(endpoints), service, zones, (dnsName, "AAAA"))
    {
      ghost var one := pairs + [(dnsName, "A")];
      NameParts(d, before, service, zones, pairs, dnsName);
      var zoneName := SelectZone(service, zones, dnsName);
      if zoneName == "" {
        return false, {};
      }
      var first, second;
      ok, first := EnsureRecord(d, service, zones, dnsName, "A", zoneName, before, pairs);
      if !ok {
        return false, {};
      }
      ok, second := EnsureRecord(d, service, zones, dnsName, "AAAA", zoneName, before, one);
      keys := {first} + {second};
    }

    /** The first loop: all names in turn. */
    method EnsureNames(d: Digests, service: Service, zones: Listing, names: seq<Name>)
      returns (ok: bool, desired: set<ObjectKey>)
      requires DigestsFit(d) && AddressPairs(Pairs(names))
      modifies this`endpoints, this`calls, this`writes
      ensures ok ==> Applied(d, old(endpoints), service, zones, Pairs(names)) == Some(endpoints)
      ensures ok ==> desired == KeysOf(d, service, Pairs(names))
      ensures !ok ==> PartlyApplied(d, old(endpoints), service, zones, Pairs(names), endpoints)
      ensures !ok && Reliable() ==> Applied(d, old(endpoints), service, zones, Pairs(names)).None?
      ensures AllSettled(d, old(endpoints), service, zones, Pairs(names)) ==>
                endpoints == old(endpoints) && writes == old(writes)
      ensures writes >= old(writes) && (writes == old(writes) ==> endpoints == old(endpoints))
      ensures ok && writes == old(writes) ==> AllSettled(d, old(endpoints), service, zones, Pairs(names))
    {
      desired := {};
      ghost var pairs := Pairs(names);
      PairsAreAddresses(names);
      ghost var settled := AllSettled(d, endpoints, service, zones, pairs);
      assert names[..0] == [];
      for i := 0 to |names|
        invariant AddressPairs(Pairs(names[..i]))
        invariant Applied(d, old(endpoints), service, zones, Pairs(names[..i])) == Some(endpoints)
        invariant desired == KeysOf(d, service, Pairs(names[..i]))
        invariant settled ==> endpoints == old(endpoints) && writes == old(writes)
        invariant writes >= old(writes)
        invariant writes == old(writes) ==>
                    endpoints == old(endpoints) && AllSettled(d, old(endpoints), service, zones, Pairs(names[..i]))
      {
        NextName(names, i);
        ghost var part := Pairs(names[..i]);
        NameSteps(d, old(endpoints), service, zones, part, names[i]);
        SettledByName(d, old(endpoints), service, zones, part, names[i], pairs);
        var done, keys := EnsureName(d, service, zones, names[i], old(endpoints), part);
        if !done {
          PartOfMore(d, old(endpoints), service, zones, WithName(part, names[i]), pairs, endpoints);
          if Reliable() { AppliedFails(d, old(endpoints), service, zones, WithName(part, names[i]), pairs); }
          return false, desired;
        }
        desired := desired + keys;
      }
      assert names[..|names|] == names;
      ok := true;
    }

    /** A pass.  It fails only where the code reports an error or a call fails. */
    method Reconcile(d: Digests, service: Service, zones: Listing) returns (ok: bool)
      requires DigestsFit(d)
      modifies this`endpoints, this`calls, this`writes
      ensures ok ==> IsPass(d, old(endpoints), service, zones, endpoints)
      ensures MayLeave(d, old(endpoints), service, zones, endpoints)
      ensures !ok && Reliable() ==> Applied(d, old(endpoints), service, zones, Pairs(DnsNames(service))).None?
      ensures Settled(d, old(endpoints), service, zones, Pairs(DnsNames(service))) ==>
                endpoints == old(endpoints) && writes == old(writes)
      ensures ok && writes == old(writes) ==> Settled(d, old(endpoints), service, zones, Pairs(DnsNames(service)))
    {
      var names := DnsNames(service);
      ghost var pairs := Pairs(names);
      PairsAreAddresses(names);
      var o := Call();
      if o != Answered {
        PartOfAll(d, endpoints, service, zones, [], pairs, endpoints);
        return false;
      }
      var ensured, desired := EnsureNames(d, service, zones, names);
      if !ensured {
        return false;
      }
      ghost var applied := endpoints;
      ok := DeleteStale(service, desired);
      ghost var ks :| ks <= Stale(applied, service, desired) && endpoints == DeleteEndpoints(applied, ks);
      assert PartlyDeleted(d, old(endpoints), service, zones, pairs, ks, endpoints);
    }
  }

  /** The pairs with both records of one more name. */
  ghost function WithName(pairs: seq<Pair>, n: Name): seq<Pair> {
    pairs + [(n, "A"), (n, "AAAA")]
  }

  /** One more record. */
  ghost function Then(d: Digests, m: Option<Endpoints>, service: Service, zones: Listing, p: Pair): Option<Endpoints>
    requires DigestsFit(d) && p.1 in ADDRESS_TYPES
  {
    var zoneName := Selected(service, zones, p.0).0;
    if m.None? || zoneName == "" then None else Ensured(d, m.value, service, KeyFor(d, service, p), p, zoneName)
  }

  lemma KeysGrow(d: Digests, service: Service, pairs: seq<Pair>, p: Pair)
    requires DigestsFit(d) && AddressPairs(pairs) && p.1 in ADDRESS_TYPES
    ensures AddressPairs(pairs + [p])
    ensures KeysOf(d, service, pairs + [p]) == KeysOf(d, service, pairs) + {KeyFor(d, service, p)}
  {
  }

  lemma AppliedOneMore(d: Digests, m: Endpoints, service: Service, zones: Listing, pairs: seq<Pair>, p: Pair)
    requires DigestsFit(d) && AddressPairs(pairs) && p.1 in ADDRESS_TYPES
    ensures AddressPairs(pairs + [p])
    ensures Applied(d, m, service, zones, pairs + [p]) ==
              Then(d, Applied(d, m, service, zones, pairs), service, zones, p)
  {
    assert (pairs + [p])[..|pairs|] == pairs;
  }

  /** What one more name adds, record by record. */
  lemma NameSteps(d: Digests, m: Endpoints, service: Service, zones: Listing, pairs: seq<Pair>, n: Name)
    requires DigestsFit(d) && AddressPairs(pairs)
    ensures var p, q, more := (n, "A"), (n, "AAAA"), WithName(pairs, n);
            && AddressPairs(pairs + [p]) && AddressPairs(more)
            && Applied(d, m, service, zones, pairs + [p]) ==
               Then(d, Applied(d, m, service, zones, pairs), service, zones, p)
            && Applied(d, m, service, zones, more) ==
               Then(d, Applied(d, m, service, zones, pairs + [p]), service, zones, q)
            && KeysOf(d, service, more) == KeysOf(d, service, pairs) + {KeyFor(d, service, p), KeyFor(d, service, q)}
  {
    var p, q := (n, "A"), (n, "AAAA");
    assert WithName(pairs, n) == pairs + [p] + [q];
    KeysGrow(d, service, pairs, p);
    KeysGrow(d, service, pairs + [p], q);
    AppliedOneMore(d, m, service, zones, pairs, p);
    AppliedOneMore(d, m, service, zones, pairs + [p], q);
  }

  lemma SettledByName(d: Digests, m: Endpoints, service: Service, zones: Listing, part: seq<Pair>, n: Name,
                      pairs: seq<Pair>)
    requires DigestsFit(d) && AddressPairs(part) && AddressPairs(pairs) && WithName(part, n) <= pairs
    ensures var p, q := (n, "A"), (n, "AAAA");
            && AddressPairs(WithName(part, n))
            && (AllSettled(d, m, service, zones, WithName(part, n)) <==>
                AllSettled(d, m, service, zones, part) &&
                PairSettled(d, m, service, zones, p) && PairSettled(d, m, service, zones, q))
            && (AllSettled(d, m, service, zones, pairs) ==> AllSettled(d, m, service, zones, WithName(part, n)))
  {
    var p, q := (n, "A"), (n, "AAAA");
    forall x ensures x in WithName(part, n) <==> x in part || x == p || x == q {}
    assert p in WithName(part, n) && q in WithName(part, n);
    forall x | x in WithName(part, n) ensures x in pairs {}
  }

  /** What is part of the first pairs is part of all of them. */
  lemma PartOfMore(d: Digests, m: Endpoints, service: Service, zones: Listing, part: seq<Pair>, pairs: seq<Pair>,
                   after: Endpoints)
    requires DigestsFit(d) && AddressPairs(part) && AddressPairs(pairs) && part <= pairs
    requires PartlyApplied(d, m, service, zones, part, after)
    ensures PartlyApplied(d, m, service, zones, pairs, after)
  {
    var n: nat :| n <= |part| && Applied(d, m, service, zones, part[..n]) == Some(after);
    assert pairs[..n] == part[..n];
  }

  lemma PartOfAll(d: Digests, m: Endpoints, service: Service, zones: Listing, part: seq<Pair>, pairs: seq<Pair>,
                  after: Endpoints)
    requires DigestsFit(d) && AddressPairs(part) && AddressPairs(pairs) && part <= pairs
    requires Applied(d, m, service, zones, part) == Some(after)
    ensures PartlyApplied(d, m, service, zones, pairs, after)
  {
    assert pairs[..|part|] == part;
  }

  /** What one more name can leave, and how it can fail. */
  lemma NameParts(d: Digests, m: Endpoints, service: Service, zones: Listing, pairs: seq<Pair>, n: Name)
    requires DigestsFit(d) && AddressPairs(pairs)
    ensures var one, two := pairs + [(n, "A")], WithName(pairs, n);
            && AddressPairs(one) && AddressPairs(two) && one + [(n, "AAAA")] == two
            && (forall x ::
                  Applied(d, m, service, zones, pairs) == Some(x) || Applied(d, m, service, zones, one) == Some(x) ||
                  Applied(d, m, service, zones, two) == Some(x) ==>
                    PartlyApplied(d, m, service, zones, two, x))
            && (Applied(d, m, service, zones, one).None? ==> Applied(d, m, service, zones, two).None?)
            && (Selected(service, zones, n).0 == "" ==> Applied(d, m, service, zones, two).None?)
  {
    var one, two := pairs + [(n, "A")], WithName(pairs, n);
    NameSteps(d, m, service, zones, pairs, n);
    forall part, x | part in {pairs, one, two} && Applied(d, m, service, zones, part) == Some(x)
      ensures PartlyApplied(d, m, service, zones, two, x)
    {
      PartOfAll(d, m, service, zones, part, two, x);
    }
  }

  lemma {:induction false} PairsPrefix(names: seq<Name>, i: nat)
    requires i <= |names|
    ensures Pairs(names[..i]) <= Pairs(names)
    decreases |names|
  {
    if i == |names| {
      assert names[..i] == names;
    } else {
      var last := |names| - 1;
      assert names[..last][..i] == names[..i];
      PairsPrefix(names[..last], i);
    }
  }

  /** Once the first pairs fail, all of them do. */
  lemma {:induction false} AppliedFails(d: Digests, m: Endpoints, service: Service, zones: Listing, part: seq<Pair>,
                                        pairs: seq<Pair>)
    requires DigestsFit(d) && AddressPairs(part) && AddressPairs(pairs) && part <= pairs
    requires Applied(d, m, service, zones, part).None?
    ensures Applied(d, m, service, zones, pairs).None?
    decreases |pairs| - |part|
  {
    if |part| == |pairs| {
      assert part == pairs;
    } else {
      AppliedOneMore(d, m, service, zones, part, pairs[|part|]);
      AppliedFails(d, m, service, zones, part + [pairs[|part|]], pairs);
    }
  }

  /** What the next name adds to the pairs. */
  lemma {:induction false} NextName(names: seq<Name>, i: nat)
    requires i < |names|
    ensures Pairs(names[..i + 1]) == WithName(Pairs(names[..i]), names[i]) && Pairs(names[..i + 1]) <= Pairs(names)
  {
    var more := names[..i + 1];
    assert more[..|more| - 1] == names[..i] && more[|more| - 1] == names[i];
    PairsPrefix(names, i + 1);
  }
}

/** The rules for DNS records and zones spelled out on labels, types and targets (section 3.6.2 of
    RFC 1034, sections 8, 10.1 and 10.3 of RFC 2181), and that admission enforces exactly them. */
module DnsRules {
  import opened Wrappers
  import opened Names
  import opened Api
  import opened DnsAdmission
  import opened DnsLifecycle

  // ---- The rules ----

  /** The same labels up to case. */
  ghost predicate SameName(a: Name, b: Name) {
    |a| == |b| && forall i :: 0 <= i < |a| ==> ToLower(a[i]) == ToLower(b[i])
  }

  ghost predicate Simple(e: EndpointSpec) {
    e.policy == "" || ToLower(e.policy) == "simple"
  }

  ghost predicate OfType(e: EndpointSpec, recordType: string) {
    ToUpper(e.recordType) == recordType
  }

  /** A target of the record parses to a mail or name server of that name. */
  ghost predicate PointsAt(dns: Dns, e: EndpointSpec, owner: Name) {
    exists t, h: Name :: t in e.targets && SameName(h, owner) &&
      (dns.parse(ToUpper(e.recordType), t) == Mx(h) || dns.parse(ToUpper(e.recordType), t) == Ns(h))
  }

  /** A wildcard is allowed as the whole first label only. */
  ghost predicate Spelled(dns: Dns, n: Name, wildcard: bool) {
    && n != [] && dns.isDomain(n)
    && (forall i :: 1 <= i < |n| ==> '*' !in n[i]) && ('*' in n[0] ==> wildcard && n[0] == "*")
  }

  /** What a record must satisfy by itself. */
  ghost predicate RecordRules(dns: Dns, e: EndpointSpec) {
    && e.zone.Some? && e.zone.value != "" && Spelled(dns, e.dnsName, true) && 0 <= e.ttl <= 2147483647
    && (e.policy == "Weighted" || e.policy == "Geolocation" || e.policy == "RoundRobin" ==> e.selector.Some?)
    && (|| OfType(e, "A") || OfType(e, "AAAA")
        || (Simple(e) && (|| OfType(e, "CNAME") || OfType(e, "TXT") || OfType(e, "MX")
                          || OfType(e, "SRV") || OfType(e, "NS"))))
    && (Simple(e) ==> e.targets != [] && forall t :: t in e.targets ==> dns.parse(ToUpper(e.recordType), t) != Bad)
    && (Simple(e) && OfType(e, "CNAME") ==> |e.targets| == 1 && AliasRules(dns, e.dnsName, e.targets[0]))
  }

  /** A CNAME points to a domain name other than its owner. */
  ghost predicate AliasRules(dns: Dns, owner: Name, target: string) {
    !dns.isIp(target) && forall n: Name :: dns.parse("CNAME", target) == Cname(n) ==> !SameName(n, owner)
  }

  /** What it must satisfy with its zone: one of its namespace, under whose name it lies. */
  ghost predicate ZoneRules(dns: Dns, zones: map<ObjectKey, Zone>, namespace: string, e: EndpointSpec)
    requires e.zone.Some?
  {
    var z := ObjectKey(namespace, e.zone.value);
    z in zones && Spelled(dns, zones[z].zone, false) && Under(zones[z].zone, e.dnsName)
  }

  /** What two records of a namespace must satisfy: at one owner they differ in zone or type and neither
      is a CNAME, and neither points a mail exchange or name server at the other if that is a CNAME. */
  ghost predicate PairRules(dns: Dns, x: EndpointSpec, y: EndpointSpec) {
    && (SameName(x.dnsName, y.dnsName) ==>
          && (x.zone != y.zone || ToUpper(x.recordType) != ToUpper(y.recordType))
          && !OfType(x, "CNAME") && !OfType(y, "CNAME"))
    && (OfType(y, "CNAME") && (OfType(x, "MX") || OfType(x, "NS")) ==> !PointsAt(dns, x, y.dnsName))
    && (OfType(x, "CNAME") && (OfType(y, "MX") || OfType(y, "NS")) ==> !PointsAt(dns, y, x.dnsName))
  }

  // ---- The checks are the rules ----

  lemma SameNameIff(a: Name, b: Name)
    ensures SameName(a, b) <==> Names.Canonical(a) == Names.Canonical(b)
  {
    if Names.Canonical(a) == Names.Canonical(b) {
      forall i | 0 <= i < |a| ensures ToLower(a[i]) == ToLower(b[i]) {
        assert Names.Canonical(a)[i] == Names.Canonical(b)[i];
      }
    }
  }

  lemma SpelledIff(dns: Dns, n: Name, wildcard: bool)
    ensures ValidName(dns, n, wildcard) <==> Spelled(dns, n, wildcard)
  {
  }

  lemma AddressIff(e: EndpointSpec)
    ensures IsSimple(e.policy) <==> Simple(e)
    ensures IsAddress(e.recordType) <==> OfType(e, "A") || OfType(e, "AAAA")
    ensures EqualFold(e.recordType, "CNAME") <==> OfType(e, "CNAME")
  {
    SimpleIsLower(e.policy);
    EqualFoldIsToUpper(e.recordType, "A");
    EqualFoldIsToUpper(e.recordType, "AAAA");
    EqualFoldIsToUpper(e.recordType, "CNAME");
    assert ToUpper("A") == "A" && ToUpper("AAAA") == "AAAA" && ToUpper("CNAME") == "CNAME";
  }

  lemma TargetsIff(dns: Dns, e: EndpointSpec)
    ensures TargetsOk(dns, e) <==>
              && (Simple(e) ==> e.targets != [] && forall t :: t in e.targets ==>
                 dns.parse(ToUpper(e.recordType), t) != Bad)
              && (Simple(e) && OfType(e, "CNAME") ==> |e.targets| == 1 && AliasRules(dns, e.dnsName, e.targets[0]))
  {
    AddressIff(e);
    forall t ensures TargetOk(dns, e, t) <==>
      dns.parse(ToUpper(e.recordType), t) != Bad && (OfType(e, "CNAME") ==> AliasRules(dns, e.dnsName, t))
    {
      TargetIff(dns, e, t);
    }
    if |e.targets| == 1 { assert e.targets[0] in e.targets && e.targets == [e.targets[0]]; }
  }

  lemma TargetIff(dns: Dns, e: EndpointSpec, t: string)
    ensures TargetOk(dns, e, t) <==>
              dns.parse(ToUpper(e.recordType), t) != Bad && (OfType(e, "CNAME") ==> AliasRules(dns, e.dnsName, t))
  {
    AddressIff(e);
    forall n: Name ensures SameName(n, e.dnsName) <==> Names.Canonical(n) == Names.Canonical(e.dnsName) {
      SameNameIff(n, e.dnsName);
    }
  }

  /** The non-conflict checks accept exactly the records that satisfy the rules. */
  lemma SpecIffRules(dns: Dns, zones: map<ObjectKey, Zone>, namespace: string, e: EndpointSpec)
    ensures SpecOk(dns, zones, namespace, e) <==> RecordRules(dns, e) && ZoneRules(dns, zones, namespace, e)
  {
    AddressIff(e);
    TargetsIff(dns, e);
    SpelledIff(dns, e.dnsName, true);
    if e.zone.Some? && ObjectKey(namespace, e.zone.value) in zones {
      var zone := zones[ObjectKey(namespace, e.zone.value)].zone;
      SpelledIff(dns, zone, false);
      UnderIff(zone, e.dnsName);
    }
  }

  lemma PointsIff(dns: Dns, e: EndpointSpec, owner: Name)
    ensures PointsTo(dns, e, Names.Canonical(owner)) <==> PointsAt(dns, e, owner)
  {
    forall h: Name
      ensures SameName(h, owner) <==> Names.Canonical(h) == Names.Canonical(owner)
    {
      SameNameIff(h, owner);
    }
    if PointsTo(dns, e, Names.Canonical(owner)) {
      var t :| t in e.targets && HostOf(dns.parse(ToUpper(e.recordType), t)).Some? &&
        Names.Canonical(HostOf(dns.parse(ToUpper(e.recordType), t)).value) == Names.Canonical(owner);
      var h := HostOf(dns.parse(ToUpper(e.recordType), t)).value;
      assert SameName(h, owner);
    }
  }

  lemma PairIffRules(dns: Dns, x: EndpointSpec, y: EndpointSpec)
    requires RecordRules(dns, x) && RecordRules(dns, y)
    ensures Compatible(dns, x, y) <==> PairRules(dns, x, y)
  {
    AddressIff(x);
    AddressIff(y);
    SameNameIff(x.dnsName, y.dnsName);
    PointsIff(dns, x, y.dnsName);
    PointsIff(dns, y, x.dnsName);
  }

  /** An endpoint is admitted if and only if it satisfies the rules by itself, with its zone and with
      every other endpoint of its namespace. */
  lemma AdmittedIffRules(dns: Dns, c: Cluster, key: ObjectKey, e: EndpointSpec)
    requires AllRuled(dns, c)
    ensures (SpecOk(dns, c.zones, key.namespace, e) && NoConflict(dns, c.endpoints, key, e)) <==>
            (RecordRules(dns, e) && ZoneRules(dns, c.zones, key.namespace, e) && forall k ::
               k in c.endpoints && k.namespace == key.namespace && k != key ==> PairRules(dns, e, c.endpoints[k].spec))
  {
    SpecIffRules(dns, c.zones, key.namespace, e);
    if RecordRules(dns, e) {
      forall k | k in c.endpoints
        ensures Conflict(dns, e, c.endpoints[k].spec) <==> !PairRules(dns, e, c.endpoints[k].spec)
      {
        ConflictIsIncompatible(dns, e, c.endpoints[k].spec);
        PairIffRules(dns, e, c.endpoints[k].spec);
      }
    }
  }

  /** A zone is admitted if and only if no name lies under it and under another zone. */
  lemma ZoneAdmittedIff(zones: map<ObjectKey, Zone>, key: ObjectKey, name: Name)
    ensures NoOverlap(zones, key, name) <==>
              !exists k, n: Name :: k in zones && k != key && Under(name, n) && Under(zones[k].zone, n)
  {
    forall k | k in zones
      ensures Overlap(name, zones[k].zone) <==> exists n: Name :: Under(name, n) && Under(zones[k].zone, n)
    {
      OverlapIffCommonName(name, zones[k].zone);
      forall n: Name
        ensures IsSubDomain(name, n) <==> Under(name, n)
        ensures IsSubDomain(zones[k].zone, n) <==> Under(zones[k].zone, n)
      {
        UnderIff(name, n);
        UnderIff(zones[k].zone, n);
      }
    }
  }

  // ---- Every run obeys them ----

  ghost predicate AllRuled(dns: Dns, c: Cluster) {
    forall k :: k in c.endpoints ==> RecordRules(dns, c.endpoints[k].spec)
  }

  lemma NextStaysRuled(dns: Dns, c: Cluster, step: Step)
    requires AllRuled(dns, c)
    ensures AllRuled(dns, Next(dns, c, step))
  {
    match step {
      case WriteEndpoint(key, e) => SpecIffRules(dns, c.zones, key.namespace, e.spec);
      case _ => OtherStepsKeepSpecs(dns, c, step);
    }
  }

  lemma {:induction false} RecordsStayRuled(dns: Dns, c: Cluster, steps: seq<Step>)
    requires AllRuled(dns, c)
    ensures AllRuled(dns, Run(dns, c, steps))
    decreases |steps|
  {
    if steps != [] {
      NextStaysRuled(dns, c, steps[0]);
      RecordsStayRuled(dns, Next(dns, c, steps[0]), steps[1..]);
    }
  }

  /** In every reachable state of every run the stored records satisfy the rules by themselves, and
      those of one namespace pairwise. */
  lemma EveryRunObeys(dns: Dns, steps: seq<Step>, j: ObjectKey, k: ObjectKey)
    ensures var e := Run(dns, EMPTY, steps).endpoints;
            && (j in e ==> RecordRules(dns, e[j].spec))
            && (j in e && k in e && j != k && j.namespace == k.namespace ==> PairRules(dns, e[j].spec, e[k].spec))
  {
    RecordsStayRuled(dns, EMPTY, steps);
    RunKeepsNamespaces(dns, EMPTY, steps);
    var e := Run(dns, EMPTY, steps).endpoints;
    if j in e && k in e { PairIffRules(dns, e[j].spec, e[k].spec); }
  }

  /** In every state reached without leaving an orphan they satisfy the rules with their zones. */
  lemma ZonesAreObeyed(dns: Dns, steps: seq<Step>, k: ObjectKey)
    requires NoOrphans(dns, EMPTY, steps)
    ensures var c := Run(dns, EMPTY, steps);
            k in c.endpoints ==>
              c.endpoints[k].spec.zone.Some? && ZoneRules(dns, c.zones, k.namespace, c.endpoints[k].spec)
  {
    RunKeepsInv(dns, EMPTY, steps);
    var c := Run(dns, EMPTY, steps);
    if k in c.endpoints { SpecIffRules(dns, c.zones, k.namespace, c.endpoints[k].spec); }
  }

  /** In every reachable state of every run no name lies under two zones of the cluster. */
  lemma ZonesAreApart(dns: Dns, steps: seq<Step>, j: ObjectKey, k: ObjectKey, n: Name)
    ensures var zones := Run(dns, EMPTY, steps).zones;
            j in zones && k in zones && Under(zones[j].zone, n) && Under(zones[k].zone, n) ==> j == k
  {
    var zones := Run(dns, EMPTY, steps).zones;
    NameInOneZone(dns, steps, j, k, n);
    if j in zones && k in zones {
      UnderIff(zones[j].zone, n);
      UnderIff(zones[k].zone, n);
    }
  }
}

/** The DNSEndpoint and Zone webhooks, internal/webhook/v1alpha1.

    A stored name is a label sequence; the text "" is the empty sequence. */
module DnsAdmission {
  import opened Wrappers
  import opened Names
  import opened Api

  /** What parsing the text of one record yields. */
  datatype Record = Bad | Mx(host: Name) | Ns(host: Name) | Cname(target: Name) | Other

  /** The library calls the webhook relies on: record parsing as a function of type and target,
      recognition of IP addresses, and the length rules for names. */
  datatype Dns = Dns(parse: (string, string) -> Record, isIp: string -> bool, isDomain: Name -> bool)

  const MAX_TTL := 0x7FFF_FFFF
  const RECORD_TYPES := {"A", "AAAA", "CNAME", "TXT", "MX", "SRV", "NS"}

  datatype Cluster = Cluster(zones: map<ObjectKey, Zone>, endpoints: map<ObjectKey, Endpoint>)

  predicate IsSimple(policy: string) {
    policy == "" || EqualFold(policy, "Simple")
  }

  predicate IsAddress(recordType: string) {
    EqualFold(recordType, "A") || EqualFold(recordType, "AAAA")
  }

  // ---- Names and targets ----

  ghost predicate ValidName(dns: Dns, name: Name, allowWildcard: bool) {
    && name != [] && dns.isDomain(name)
    && forall i :: 0 <= i < |name| && '*' in name[i] ==> allowWildcard && i == 0 && name[i] == "*"
  }

  method ValidDnsName(dns: Dns, name: Name, allowWildcard: bool) returns (ok: bool)
    ensures ok <==> ValidName(dns, name, allowWildcard)
  {
    if name == [] {
      return false;
    }
    for index := 0 to |name|
      invariant forall i :: 0 <= i < index && '*' in name[i] ==> allowWildcard && i == 0 && name[i] == "*"
    {
      if '*' in name[index] && (!allowWildcard || index != 0 || name[index] != "*") {
        return false;
      }
    }
    return dns.isDomain(name);
  }

  ghost predicate TargetOk(dns: Dns, e: EndpointSpec, target: string) {
    var record := dns.parse(ToUpper(e.recordType), target);
    && record != Bad
    && (EqualFold(e.recordType, "CNAME") ==>
          !dns.isIp(target) && !(record.Cname? && Names.Canonical(record.target) == Names.Canonical(e.dnsName)))
  }

  ghost predicate TargetsOk(dns: Dns, e: EndpointSpec) {
    IsSimple(e.policy) ==>
      && e.targets != []
      && (EqualFold(e.recordType, "CNAME") ==> |e.targets| == 1)
      && forall t :: t in e.targets ==> TargetOk(dns, e, t)
  }

  method ValidateTargets(dns: Dns, e: EndpointSpec) returns (ok: bool)
    ensures ok <==> TargetsOk(dns, e)
  {
    var policy := ToLower(e.policy);
    if policy == "" {
      policy := "simple";
    }
    SimpleIsLower(e.policy);
    if policy != "simple" {
      return true;
    }
    if |e.targets| == 0 {
      return false;
    }
    if EqualFold(e.recordType, "CNAME") && |e.targets| != 1 {
      return false;
    }
    for i := 0 to |e.targets|
      invariant forall n :: 0 <= n < i ==> TargetOk(dns, e, e.targets[n])
    {
      var target := e.targets[i];
      assert target in e.targets;
      if EqualFold(e.recordType, "CNAME") && dns.isIp(target) {
        return false;
      }
      var record := dns.parse(ToUpper(e.recordType), target);
      if record.Bad? {
        return false;
      }
      if EqualFold(e.recordType, "CNAME") && record.Cname? {
        if Names.Canonical(record.target) == Names.Canonical(e.dnsName) {
          return false;
        }
      }
    }
    return true;
  }

  lemma SimpleIsLower(policy: string)
    ensures IsSimple(policy) <==> ToLower(policy) == "" || ToLower(policy) == "simple"
  {
    assert ToLower("Simple") == "simple";
  }

  // ---- Conflicts ----

  predicate HasType(e: EndpointSpec, recordType: string) {
    ToUpper(e.recordType) == recordType
  }

  predicate IsHostRecord(e: EndpointSpec) {
    IsSimple(e.policy) && (HasType(e, "MX") || HasType(e, "NS"))
  }

  function HostOf(record: Record): Option<Name> {
    match record
    case Mx(host) => Some(host)
    case Ns(host) => Some(host)
    case _ => None
  }

  /** The mail or name server hosts an endpoint points to. */
  ghost predicate PointsTo(dns: Dns, e: EndpointSpec, owner: Name) {
    exists t :: t in e.targets && HostOf(dns.parse(ToUpper(e.recordType), t)).Some? &&
                Names.Canonical(HostOf(dns.parse(ToUpper(e.recordType), t)).value) == owner
  }

  method MxOrNsTargets(dns: Dns, e: EndpointSpec) returns (hosts: seq<Name>)
    ensures !IsSimple(e.policy) ==> hosts == []
    ensures IsSimple(e.policy) ==> forall owner: Name ::
              (exists h :: h in hosts && Names.Canonical(h) == owner) <==> PointsTo(dns, e, owner)
  {
    hosts := [];
    if !IsSimple(e.policy) {
      return;
    }
    for i := 0 to |e.targets|
      invariant forall h :: h in hosts <==>
                  exists n :: 0 <= n < i && HostOf(dns.parse(ToUpper(e.recordType), e.targets[n])) == Some(h)
    {
      var record := dns.parse(ToUpper(e.recordType), e.targets[i]);
      match record {
        case Mx(host) => hosts := hosts + [host];
        case Ns(host) => hosts := hosts + [host];
        case _ =>
      }
    }
    forall owner: Name ensures (exists h :: h in hosts && Names.Canonical(h) == owner) <==> PointsTo(dns, e, owner) {
      if PointsTo(dns, e, owner) {
        var t :| t in e.targets && HostOf(dns.parse(ToUpper(e.recordType), t)).Some? &&
                 Names.Canonical(HostOf(dns.parse(ToUpper(e.recordType), t)).value) == owner;
        var n :| 0 <= n < |e.targets| && e.targets[n] == t;
        assert HostOf(dns.parse(ToUpper(e.recordType), t)).value in hosts;
      }
    }
  }

  /** The second extractor: the host of one target, or the root name if there is none. */
  function TargetName(dns: Dns, recordType: string, target: string): Name {
    match HostOf(dns.parse(recordType, target))
    case Some(host) => host
    case None => []
  }

  /** What the conflict check compares, read off for one other record. */
  ghost predicate Conflict(dns: Dns, e: EndpointSpec, other: EndpointSpec)
    requires e.zone.Some?
  {
    var owner, otherOwner := Names.Canonical(e.dnsName), Names.Canonical(other.dnsName);
    || (owner == otherOwner && other.zone == e.zone && ToUpper(e.recordType) == ToUpper(other.recordType))
    || (owner == otherOwner && (HasType(e, "CNAME") || HasType(other, "CNAME")))
    || (HasType(e, "CNAME") && IsHostRecord(other) && PointsTo(dns, other, owner))
    || (IsHostRecord(e) && HasType(other, "CNAME") &&
        exists t :: t in e.targets && Names.Canonical(TargetName(dns, ToUpper(e.recordType), t)) == otherOwner)
  }

  method ValidateConflicts(dns: Dns, key: ObjectKey, e: EndpointSpec, existing: seq<(ObjectKey, EndpointSpec)>)
    returns (ok: bool)
    requires e.zone.Some?
    ensures ok <==> forall i :: 0 <= i < |existing| && existing[i].0 != key ==> !Conflict(dns, e, existing[i].1)
  {
    var owner, recordType := Names.Canonical(e.dnsName), ToUpper(e.recordType);
    for index := 0 to |existing|
      invariant forall i :: 0 <= i < index && existing[i].0 != key ==> !Conflict(dns, e, existing[i].1)
    {
      var (otherKey, other) := existing[index];
      if otherKey == key {
        continue;
      }
      var conflict := ConflictsWith(dns, e, owner, recordType, other);
      if conflict {
        return false;
      }
    }
    return true;
  }

  /** The loop body of the conflict check. */
  method ConflictsWith(dns: Dns, e: EndpointSpec, owner: Name, recordType: string, other: EndpointSpec)
    returns (conflict: bool)
    requires e.zone.Some? && owner == Names.Canonical(e.dnsName) && recordType == ToUpper(e.recordType)
    ensures conflict <==> Conflict(dns, e, other)
  {
    var otherOwner, otherType := Names.Canonical(other.dnsName), ToUpper(other.recordType);
    var sameOwner := owner == otherOwner;
    var sameZone := other.zone.Some? && other.zone.value == e.zone.value;
    if sameOwner && sameZone && recordType == otherType {
      return true;
    }
    if sameOwner && (recordType == "CNAME" || otherType == "CNAME") {
      return true;
    }
    if recordType == "CNAME" && IsSimple(other.policy) && (otherType == "MX" || otherType == "NS") {
      var hosts := MxOrNsTargets(dns, other);
      for i := 0 to |hosts|
        invariant forall n :: 0 <= n < i ==> Names.Canonical(hosts[n]) != owner
      {
        if Names.Canonical(hosts[i]) == owner {
          assert hosts[i] in hosts;
          return true;
        }
      }
    }
    if IsSimple(e.policy) && (recordType == "MX" || recordType == "NS") {
      for i := 0 to |e.targets|
        invariant otherType == "CNAME" ==>
                    forall n :: 0 <= n < i ==> Names.Canonical(TargetName(dns, recordType, e.targets[n])) != otherOwner
      {
        var targetName := TargetName(dns, recordType, e.targets[i]);
        if otherType == "CNAME" && Names.Canonical(targetName) == otherOwner {
          assert e.targets[i] in e.targets;
          return true;
        }
      }
    }
    return false;
  }

  // ---- The whole endpoint check ----

  /** Everything the webhook asks of one endpoint apart from conflicts with others. */
  ghost predicate SpecOk(dns: Dns, zones: map<ObjectKey, Zone>, namespace: string, e: EndpointSpec) {
    && (e.policy in {"Weighted", "Geolocation", "RoundRobin"} ==> e.selector.Some?)
    && e.zone.Some? && e.zone.value != ""
    && ObjectKey(namespace, e.zone.value) in zones
    && var zone := zones[ObjectKey(namespace, e.zone.value)].zone;
       && ValidName(dns, zone, false) && ValidName(dns, e.dnsName, true) && IsSubDomain(zone, e.dnsName)
       && 0 <= e.ttl <= MAX_TTL
       && ToUpper(e.recordType) in RECORD_TYPES
       && (!IsSimple(e.policy) ==> IsAddress(e.recordType))
       && TargetsOk(dns, e)
  }

  ghost predicate NoConflict(dns: Dns, endpoints: map<ObjectKey, Endpoint>, key: ObjectKey, e: EndpointSpec)
    requires e.zone.Some?
  {
    forall k :: k in endpoints && k.namespace == key.namespace && k != key ==> !Conflict(dns, e, endpoints[k].spec)
  }

  /** A namespaced List: every endpoint of the namespace, in no fixed order. */
  method ListEndpoints(endpoints: map<ObjectKey, Endpoint>, namespace: string)
    returns (items: seq<(ObjectKey, EndpointSpec)>)
    ensures forall x :: x in items <==> x.0 in endpoints && x.0.namespace == namespace && x.1 == endpoints[x.0].spec
  {
    items := [];
    var left := endpoints.Keys;
    while left != {}
      invariant left <= endpoints.Keys
      invariant forall x :: x in items <==>
                  x.0 in endpoints.Keys - left && x.0.namespace == namespace && x.1 == endpoints[x.0].spec
      decreases left
    {
      var k :| k in left;
      if k.namespace == namespace {
        items := items + [(k, endpoints[k].spec)];
      }
      left := left - {k};
    }
  }

  /** The validation of a created or updated DNSEndpoint. */
  method ValidateSpec(dns: Dns, c: Cluster, key: ObjectKey, e: EndpointSpec) returns (ok: bool)
    ensures ok <==> SpecOk(dns, c.zones, key.namespace, e) && NoConflict(dns, c.endpoints, key, e)
  {
    if e.policy in {"Weighted", "Geolocation", "RoundRobin"} && e.selector.None? {
      return false;
    }
    if e.zone.None? || e.zone.value == "" {
      return false;
    }
    var zoneKey := ObjectKey(key.namespace, e.zone.value);
    if zoneKey !in c.zones {
      return false;
    }
    var zone := c.zones[zoneKey].zone;
    var zoneValid := ValidDnsName(dns, zone, false);
    if !zoneValid {
      return false;
    }
    var nameValid := ValidDnsName(dns, e.dnsName, true);
    if !nameValid {
      return false;
    }
    if !IsSubDomain(zone, e.dnsName) {
      return false;
    }
    if e.ttl < 0 || e.ttl > MAX_TTL {
      return false;
    }
    if ToUpper(e.recordType) !in RECORD_TYPES {
      return false;
    }
    if !IsSimple(e.policy) && !IsAddress(e.recordType) {
      return false;
    }
    var targets := ValidateTargets(dns, e);
    if !targets {
      return false;
    }
    var existing := ListEndpoints(c.endpoints, key.namespace);
    ok := ValidateConflicts(dns, key, e, existing);
    assert forall k :: k in c.endpoints && k.namespace == key.namespace ==> (k, c.endpoints[k].spec) in existing;
    assert forall i :: 0 <= i < |existing| ==> existing[i] in existing;
  }

  // ---- Symmetry ----

  /** Two endpoints of one namespace that may both be served. */
  ghost predicate Compatible(dns: Dns, a: EndpointSpec, b: EndpointSpec) {
    var owner, other := Names.Canonical(a.dnsName), Names.Canonical(b.dnsName);
    && !(owner == other && a.zone == b.zone && ToUpper(a.recordType) == ToUpper(b.recordType))
    && !(owner == other && (HasType(a, "CNAME") || HasType(b, "CNAME")))
    && !(HasType(a, "CNAME") && IsHostRecord(b) && PointsTo(dns, b, owner))
    && !(HasType(b, "CNAME") && IsHostRecord(a) && PointsTo(dns, a, other))
  }

  lemma CompatibleSymmetric(dns: Dns, a: EndpointSpec, b: EndpointSpec)
    ensures Compatible(dns, a, b) <==> Compatible(dns, b, a)
  {
  }

  /** The two target extractors agree on records that passed the target check, so the check
      finds a conflict exactly when the pair is incompatible, whichever record came first. */
  lemma ConflictIsIncompatible(dns: Dns, e: EndpointSpec, other: EndpointSpec)
    requires e.zone.Some? && other.dnsName != []
    ensures Conflict(dns, e, other) <==> !Compatible(dns, e, other)
  {
    var otherOwner := Names.Canonical(other.dnsName);
    forall t | t in e.targets && Names.Canonical(TargetName(dns, ToUpper(e.recordType), t)) == otherOwner
      ensures PointsTo(dns, e, otherOwner)
    {
    }
  }

  // ---- The Zone check ----

  /** The names of the zones a new or updated zone overlaps. */
  method ValidateZoneOverlaps(key: ObjectKey, name: Name, listed: seq<(ObjectKey, Name)>)
    returns (overlapping: seq<string>)
    ensures overlapping == [] <==> forall i :: 0 <= i < |listed| && listed[i].0 != key ==> !Overlap(name, listed[i].1)
    ensures forall n :: n in overlapping <==>
              exists i :: 0 <= i < |listed| && listed[i].0 != key && Overlap(name, listed[i].1) && listed[i].0.name == n
  {
    overlapping := [];
    for i := 0 to |listed|
      invariant overlapping == [] <==> forall n :: 0 <= n < i && listed[n].0 != key ==> !Overlap(name, listed[n].1)
      invariant forall x :: x in overlapping <==>
                  exists n :: 0 <= n < i && listed[n].0 != key && Overlap(name, listed[n].1) && listed[n].0.name == x
    {
      var (otherKey, other) := listed[i];
      if otherKey.name == key.name && otherKey.namespace == key.namespace {
        continue;
      }
      if IsSubDomain(name, other) || IsSubDomain(other, name) {
        overlapping := overlapping + [otherKey.name];
      }
    }
  }

  ghost predicate NoOverlap(zones: map<ObjectKey, Zone>, key: ObjectKey, name: Name) {
    forall k :: k in zones && k != key ==> !Overlap(name, zones[k].zone)
  }

  /** A List over all namespaces. */
  method ListZones(zones: map<ObjectKey, Zone>) returns (items: seq<(ObjectKey, Name)>)
    ensures forall x :: x in items <==> x.0 in zones && x.1 == zones[x.0].zone
  {
    items := [];
    var left := zones.Keys;
    while left != {}
      invariant left <= zones.Keys
      invariant forall x :: x in items <==> x.0 in zones.Keys - left && x.1 == zones[x.0].zone
      decreases left
    {
      var k :| k in left;
      items := items + [(k, zones[k].zone)];
      left := left - {k};
    }
  }

  /** The validation of a created or updated Zone, against every zone of the cluster. */
  method ValidateZone(c: Cluster, key: ObjectKey, name: Name) returns (ok: bool)
    ensures ok <==> NoOverlap(c.zones, key, name)
  {
    var items := ListZones(c.zones);
    var overlapping := ValidateZoneOverlaps(key, name, items);
    ok := overlapping == [];
    assert forall k :: k in c.zones ==> (k, c.zones[k].zone) in items;
    assert forall i :: 0 <= i < |items| ==> items[i] in items;
  }
}

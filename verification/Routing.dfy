/** The service routing reconciler and its builder, internal/controller/service_routing_controller.go
    and internal/builder/dnsendpoint_builder.go. */
module Routing {
  import opened Wrappers
  import opened Names
  import opened Api

  const GEOLOCATION := "Geolocation"
  const DEFAULT_TTL := 10
  const MAX_NAME := 253

  /** What the builder marshals and hashes. */
  datatype Doc = Doc(key: ObjectKey, spec: EndpointSpec, annotation: Option<string>)

  /** The digests in use: 12 hexadecimal digits of a name, and the hash of a built object. */
  datatype Digests = Digests(short: Name -> string, hash: Doc -> string)

  ghost predicate Collisionless(d: Digests) {
    forall x, y :: d.hash(x) == d.hash(y) ==> x == y
  }

  // ---- The builder ----

  class EndpointBuilder {
    const key: ObjectKey
    var spec: EndpointSpec
    var annotation: Option<string>

    constructor (key: ObjectKey)
      ensures this.key == key && annotation == None
      ensures spec == EndpointSpec(None, [], GEOLOCATION, DEFAULT_TTL, "", [], None, None)
    {
      this.key := key;
      spec := EndpointSpec(None, [], GEOLOCATION, DEFAULT_TTL, "", [], None, None);
      annotation := None;
    }

    method WithDnsName(dnsName: Name)
      modifies this`spec
      ensures spec == old(spec).(dnsName := dnsName)
    {
      spec := spec.(dnsName := dnsName);
    }

    method WithRecordType(recordType: string)
      modifies this`spec
      ensures spec == old(spec).(recordType := recordType)
    {
      spec := spec.(recordType := recordType);
    }

    method WithRouteSelector(selector: Option<string>)
      modifies this`spec
      ensures spec == old(spec).(selector := selector)
    {
      if selector.None? {
        spec := spec.(selector := None);
        return;
      }
      spec := spec.(selector := Some(selector.value));
    }

    method WithService(service: Service, dnsName: Name, recordType: string)
      modifies this`spec
      ensures spec == old(spec).(project := service.project, dnsName := dnsName, recordType := recordType,
                                 selector := service.selector)
    {
      spec := spec.(project := service.project);
      WithDnsName(dnsName);
      WithRecordType(recordType);
      WithRouteSelector(service.selector);
    }

    /** The hash covers the object before the annotation that records it. */
    method Build(d: Digests) returns (built: Endpoint, hash: string)
      modifies this`annotation
      ensures hash == d.hash(Doc(key, spec, old(annotation))) && annotation == Some(hash)
      ensures built == Endpoint(spec, Some(hash), None, {}, false)
    {
      hash := d.hash(Doc(key, spec, annotation));
      annotation := Some(hash);
      built := Endpoint(spec, annotation, None, {}, false);
    }
  }

  // ---- Endpoint names ----

  function TrimRight(s: string): (t: string)
    ensures |t| <= |s| && t <= s
  {
    if s != [] && s[|s| - 1] in {'-', '.'} then TrimRight(s[..|s| - 1]) else s
  }

  function Suffix(d: Digests, dnsName: Name, recordType: string): string {
    "-" + d.short(Canonical(dnsName)) + "-" + ToLower(recordType)
  }

  function EndpointName(d: Digests, serviceName: string, dnsName: Name, recordType: string): string
    requires |Suffix(d, dnsName, recordType)| <= MAX_NAME
  {
    var suffix := Suffix(d, dnsName, recordType);
    var room := MAX_NAME - |suffix|;
    (if |serviceName| > room then TrimRight(serviceName[..room]) else serviceName) + suffix
  }

  /** The short digest has 12 digits, and names that differ under lowering differ in it. */
  ghost predicate ShortOk(d: Digests, names: seq<Name>) {
    && (forall n: Name :: |d.short(n)| == 12)
    && (forall m, n :: m in names && n in names && d.short(Canonical(m)) == d.short(Canonical(n)) ==>
       Canonical(m) == Canonical(n))
  }

  const ADDRESS_TYPES: seq<string> := ["A", "AAAA"]

  lemma SuffixShape(d: Digests, dnsName: Name, recordType: string)
    requires |d.short(Canonical(dnsName))| == 12 && recordType in ADDRESS_TYPES
    ensures var s := Suffix(d, dnsName, recordType);
            && |s| == 14 + |recordType| && |s| <= MAX_NAME && s[1..13] == d.short(Canonical(dnsName))
            && s[|s| - 2] == (if recordType == "A" then '-' else 'a')
  {
    assert ToLower("A") == "a" && ToLower("AAAA") == "aaaa";
  }

  /** Endpoint names fit, and two of them are equal only for one lowered name and one type. */
  lemma EndpointNamesDiffer(d: Digests, serviceName: string, names: seq<Name>, m: Name, n: Name, s: string, t: string)
    requires ShortOk(d, names) && m in names && n in names && s in ADDRESS_TYPES && t in ADDRESS_TYPES
    ensures |Suffix(d, m, s)| <= MAX_NAME && |Suffix(d, n, t)| <= MAX_NAME
    ensures |EndpointName(d, serviceName, m, s)| <= MAX_NAME
    ensures EndpointName(d, serviceName, m, s) == EndpointName(d, serviceName, n, t) ==>
              Canonical(m) == Canonical(n) && s == t
  {
    SuffixShape(d, m, s);
    SuffixShape(d, n, t);
    var x, y := EndpointName(d, serviceName, m, s), EndpointName(d, serviceName, n, t);
    var u, v := Suffix(d, m, s), Suffix(d, n, t);
    assert x[|x| - |u|..] == u && y[|y| - |v|..] == v;
    if x == y {
      assert x[|x| - 2] == u[|u| - 2] && y[|y| - 2] == v[|v| - 2];
      assert u == v;
    }
  }

  lemma {:induction false} TrimmedEnd(s: string)
    ensures var t := TrimRight(s);
            && (t != "" ==> t[|t| - 1] != '-' && t[|t| - 1] != '.')
            && forall i :: |t| <= i < |s| ==> s[i] == '-' || s[i] == '.'
  {
    if s != [] && s[|s| - 1] in {'-', '.'} { TrimmedEnd(s[..|s| - 1]); }
  }

  /** The name of an endpoint: the service's name, the digest of the lowered DNS name and the type in
      lower case.  A name too long is cut, and what ends in dashes or dots after that loses them. */
  lemma EndpointNameIs(d: Digests, serviceName: string, dnsName: Name, recordType: string)
    requires |d.short(Canonical(dnsName))| == 12 && recordType in ADDRESS_TYPES
    ensures |Suffix(d, dnsName, recordType)| <= MAX_NAME
    ensures var tail := "-" + d.short(Canonical(dnsName)) + "-" + (if recordType == "A" then "a" else "aaaa");
            var name := EndpointName(d, serviceName, dnsName, recordType);
            if |serviceName| + |tail| <= 253 then name == serviceName + tail
            else exists n ::
              && 0 <= n <= 253 - |tail| && name == serviceName[..n] + tail
              && (n > 0 ==> serviceName[n - 1] != '-' && serviceName[n - 1] != '.')
              && forall i :: n <= i < 253 - |tail| ==> serviceName[i] == '-' || serviceName[i] == '.'
  {
    SuffixShape(d, dnsName, recordType);
    assert ToLower("A") == "a" && ToLower("AAAA") == "aaaa";
    var room := MAX_NAME - |Suffix(d, dnsName, recordType)|;
    if |serviceName| > room {
      var head := serviceName[..room];
      TrimmedEnd(head);
      assert TrimRight(head) == serviceName[..|TrimRight(head)|];
    }
  }

  // ---- Zone selection ----

  /** A zone of the service's project and namespace that covers the name. */
  predicate Covers(service: Service, z: (ObjectKey, Zone), dnsName: Name) {
    SameProject(service.key.namespace, service.project, z.0.namespace, z.1.project) && IsSubDomain(z.1.zone, dnsName)
  }

  /** The loop over listed zones: the first covering zone of greatest length. */
  function Selected(service: Service, zones: seq<(ObjectKey, Zone)>, dnsName: Name): (string, nat) {
    if zones == [] then ("", 0)
    else
      var (best, length) := Selected(service, zones[..|zones| - 1], dnsName);
      var z := zones[|zones| - 1];
      if Covers(service, z, dnsName) && TextLength(z.1.zone) > length then (z.0.name, TextLength(z.1.zone))
        else (best, length)
  }

  method SelectZone(service: Service, zones: seq<(ObjectKey, Zone)>, dnsName: Name) returns (zoneName: string)
    ensures zoneName == Selected(service, zones, dnsName).0
  {
    zoneName := "";
    var zoneLength := 0;
    for i := 0 to |zones|
      invariant (zoneName, zoneLength) == Selected(service, zones[..i], dnsName)
    {
      assert zones[..i + 1][..i] == zones[..i];
      var zone := zones[i];
      if SameProject(service.key.namespace, service.project, zone.0.namespace, zone.1.project)
         && IsSubDomain(zone.1.zone, dnsName) && TextLength(zone.1.zone) > zoneLength
      {
        zoneName, zoneLength := zone.0.name, TextLength(zone.1.zone);
      }
    }
    assert zones[..|zones|] == zones;
  }

  /** The selected zone covers the name and no covering zone is longer; none is selected exactly
      when every covering zone has an empty name. */
  lemma {:induction false} SelectedIsLongest(service: Service, zones: seq<(ObjectKey, Zone)>, dnsName: Name)
    requires forall z :: z in zones ==> z.0.name != ""
    ensures var (best, length) := Selected(service, zones, dnsName);
            && (best == "" <==> length == 0)
            && (forall z :: z in zones && Covers(service, z, dnsName) ==> TextLength(z.1.zone) <= length)
            && (best != "" ==> exists z ::
                  z in zones && Covers(service, z, dnsName) && z.0.name == best && TextLength(z.1.zone) == length)
  {
    if zones != [] {
      var last := |zones| - 1;
      assert zones == zones[..last] + [zones[last]];
      SelectedIsLongest(service, zones[..last], dnsName);
      assert zones[last] in zones;
    }
  }

  /** A zone of the service's namespace and project under which the name lies. */
  ghost predicate Serves(service: Service, z: (ObjectKey, Zone), dnsName: Name) {
    && z.0.namespace == service.key.namespace && service.project.Some? && z.1.project == service.project
    && Under(z.1.zone, dnsName)
  }

  lemma ServesIff(service: Service, z: (ObjectKey, Zone), dnsName: Name)
    ensures Covers(service, z, dnsName) <==> Serves(service, z, dnsName)
    ensures TextLength(z.1.zone) == |Text(z.1.zone)|
  {
    UnderIff(z.1.zone, dnsName);
    TextLengthIs(z.1.zone);
  }

  /** A zone is selected exactly when one with a name that is not empty serves the name, and then it
      is one of the longest that do. */
  lemma LongestZoneIsSelected(service: Service, zones: seq<(ObjectKey, Zone)>, dnsName: Name)
    requires forall z :: z in zones ==> z.0.name != ""
    ensures var best := Selected(service, zones, dnsName).0;
            && (best != "" <==> exists z :: z in zones && Serves(service, z, dnsName) && Text(z.1.zone) != "")
            && (best != "" ==> exists z ::
                  z in zones && Serves(service, z, dnsName) && z.0.name == best &&
                  forall x :: x in zones && Serves(service, x, dnsName) ==> |Text(x.1.zone)| <= |Text(z.1.zone)|)
  {
    SelectedIsLongest(service, zones, dnsName);
    forall z ensures Covers(service, z, dnsName) <==> Serves(service, z, dnsName)
             ensures TextLength(z.1.zone) == |Text(z.1.zone)|
    {
      ServesIff(service, z, dnsName);
    }
  }

  /** When no name lies in two zones, the only zone that covers the name is selected, unless its
      name is the empty text. */
  lemma SelectedIsTheCover(service: Service, zones: seq<(ObjectKey, Zone)>, dnsName: Name, z: (ObjectKey, Zone))
    requires forall x :: x in zones ==> x.0.name != ""
    requires forall x, y :: x in zones && y in zones && Overlap(x.1.zone, y.1.zone) ==> x == y
    requires z in zones && Covers(service, z, dnsName)
    ensures Selected(service, zones, dnsName).0 == if TextLength(z.1.zone) > 0 then z.0.name else ""
    ensures forall x :: x in zones && Covers(service, x, dnsName) ==> x == z
  {
    SelectedIsLongest(service, zones, dnsName);
    forall x | x in zones && Covers(service, x, dnsName) ensures x == z {
      OverlapIffCommonName(x.1.zone, z.1.zone);
    }
  }
}

/** The API objects of DNS and tenancy, api/v1alpha1. */
module Api {
  import opened Wrappers
  import opened Names

  datatype ObjectKey = ObjectKey(namespace: string, name: string)

  datatype Zone = Zone(project: Option<string>, zone: Name, finalizers: set<string>, deleting: bool, status: string)

  datatype EndpointSpec = EndpointSpec(
    project: Option<string>,
    dnsName: Name,
    policy: string,
    ttl: int,
    recordType: string,
    targets: seq<string>,
    selector: Option<string>,
    zone: Option<string>)

  /** A controlling owner reference. */
  datatype Owner = Owner(kind: string, name: string, uid: nat)

  /** `hash` is the values-hash annotation. */
  datatype Endpoint = Endpoint(
    spec: EndpointSpec,
    hash: Option<string>,
    controller: Option<Owner>,
    finalizers: set<string>,
    deleting: bool)

  datatype Service = Service(
    key: ObjectKey,
    uid: nat,
    project: Option<string>,
    domain: Name,
    aliases: seq<Name>,
    selector: Option<string>)

  /** Tenancy rule: same namespace, and both name the same project. */
  predicate SameProject(namespace: string, project: Option<string>, namespace': string, project': Option<string>) {
    namespace == namespace' && project.Some? && project'.Some? && project.value == project'.value
  }

  /** API deletion of the endpoints `ks`: marked if finalizers hold them, otherwise gone. */
  ghost function DeleteEndpoints(endpoints: map<ObjectKey, Endpoint>, ks: set<ObjectKey>): map<ObjectKey, Endpoint> {
    map k | k in endpoints && !(k in ks && endpoints[k].finalizers == {} && !endpoints[k].deleting) ::
      if k in ks then endpoints[k].(deleting := true) else endpoints[k]
  }

  /** API deletion of one endpoint. */
  function DeleteEndpoint(endpoints: map<ObjectKey, Endpoint>, k: ObjectKey): (after: map<ObjectKey, Endpoint>)
    ensures after == DeleteEndpoints(endpoints, {k})
  {
    if k !in endpoints || endpoints[k].deleting then endpoints
    else if endpoints[k].finalizers == {} then endpoints - {k}
    else endpoints[k := endpoints[k].(deleting := true)]
  }

  lemma DeleteOneMore(endpoints: map<ObjectKey, Endpoint>, done: set<ObjectKey>, k: ObjectKey)
    requires k in endpoints && k !in done
    ensures var part := DeleteEndpoints(endpoints, done);
            k in part && part[k] == endpoints[k] && DeleteEndpoints(endpoints, done + {k}) == DeleteEndpoint(part, k)
  {
  }
}

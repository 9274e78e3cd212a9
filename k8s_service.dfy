/**
 * The external LoadBalancer Service of the AMF: create (apply), patch the pod-index selector,
 * probe, remove, and read the first load-balancer ingress.
 *
 * The cluster is an abstract store of Service objects keyed by namespace and name; a lookup of
 * an absent key is the API error ("not found") of the real client.
 */
module K8s {
  import opened Wrappers

  const AppNameLabel := "app.kubernetes.io/name"
  const PodIndexLabel := "apps.kubernetes.io/pod-index"

  datatype ServicePort = ServicePort(name: string, port: int, protocol: string)

  /** `serviceType` "" stands for a spec whose type was never set. */
  datatype ServiceSpec = ServiceSpec(selector: map<string, string>, ports: seq<ServicePort>, serviceType: string)

  datatype LoadBalancerIngress = LoadBalancerIngress(ip: Option<string>, hostname: Option<string>)

  datatype LoadBalancerStatus = LoadBalancerStatus(ingress: seq<LoadBalancerIngress>)

  datatype ServiceStatus = ServiceStatus(loadBalancer: Option<LoadBalancerStatus>)

  datatype Service = Service(namespace: string, name: string, spec: Option<ServiceSpec>, status: Option<ServiceStatus>)

  /** The Kubernetes API server's Service objects, keyed by (namespace, name). */
  class Cluster {
    var services: map<(string, string), Service>

    constructor (services: map<(string, string), Service>)
      ensures this.services == services
    {
      this.services := services;
    }
  }

  /**
   * The object `create` applies: a LoadBalancer selecting the application's pods, with one
   * SCTP port "ngapp". The apply is taken to replace the whole spec and to leave the status
   * the cluster assigned; the charm applies only when no Service exists.
   */
  function AppliedService(existing: Option<Service>, namespace: string, name: string, port: int, appName: string)
    : (s: Service)
    ensures s.namespace == namespace && s.name == name && s.spec.Some?
    ensures s.spec.value.serviceType == "LoadBalancer"
    ensures s.spec.value.selector == map[AppNameLabel := appName]
    ensures s.spec.value.ports == [ServicePort("ngapp", port, "SCTP")]
  {
    var spec := ServiceSpec(map[AppNameLabel := appName], [ServicePort("ngapp", port, "SCTP")], "LoadBalancer");
    Service(namespace, name, Some(spec), if existing.Some? then existing.value.status else None)
  }

  /** The object after `patch`: a strategic merge of `{selector: {pod-index: unitId}}` into the spec. */
  function PatchedService(existing: Service, unitId: string): Service
  {
    var spec :=
      if existing.spec.Some? then existing.spec.value.(selector := existing.spec.value.selector[PodIndexLabel := unitId])
      else ServiceSpec(map[PodIndexLabel := unitId], [], "");
    existing.(spec := Some(spec))
  }

  /** The early-return chain of `requires_patch` over the fetched object. */
  function SelectorNeedsPatch(fetched: Option<Service>, unitId: string): (r: bool)
    ensures r <==> && fetched.Some? && fetched.value.spec.Some?
                   && var selector := fetched.value.spec.value.selector;
                      PodIndexLabel !in selector || selector[PodIndexLabel] != unitId
  {
    if fetched.None? then false
    else if fetched.value.spec.None? then false
    else if |fetched.value.spec.value.selector| == 0 then true
    else PodIndexLabel !in fetched.value.spec.value.selector
         || fetched.value.spec.value.selector[PodIndexLabel] != unitId
  }

  /** The shared `None` chain of `get_ip` and `get_hostname`: the first ingress entry, if any. */
  function FirstIngress(fetched: Option<Service>): (r: Option<LoadBalancerIngress>)
    ensures r.Some? <==> fetched.Some? && fetched.value.status.Some?
                         && fetched.value.status.value.loadBalancer.Some?
                         && |fetched.value.status.value.loadBalancer.value.ingress| > 0
    ensures r.Some? ==> r.value == fetched.value.status.value.loadBalancer.value.ingress[0]
  {
    if fetched.None? then None
    else if fetched.value.status.None? then None
    else if fetched.value.status.value.loadBalancer.None? then None
    else if |fetched.value.status.value.loadBalancer.value.ingress| == 0 then None
    else Some(fetched.value.status.value.loadBalancer.value.ingress[0])
  }

  class K8sService {
    const cluster: Cluster
    const namespace: string
    const serviceName: string
    const servicePort: int
    const appName: string
    const unitId: string

    constructor (cluster: Cluster, namespace: string, serviceName: string, servicePort: int, appName: string, unitId: string)
      ensures this.cluster == cluster && this.namespace == namespace && this.serviceName == serviceName
      ensures this.servicePort == servicePort && this.appName == appName && this.unitId == unitId
    {
      this.cluster := cluster;
      this.namespace := namespace;
      this.serviceName := serviceName;
      this.servicePort := servicePort;
      this.appName := appName;
      this.unitId := unitId;
    }

    function Key(): (string, string)
    {
      (namespace, serviceName)
    }

    /** `client.get(Service, name, namespace)`: `None` when the API reports it missing. */
    function Fetch(): (r: Option<Service>)
      reads cluster
      ensures r.Some? <==> Key() in cluster.services
      ensures r.Some? ==> r.value == cluster.services[Key()]
    {
      if Key() in cluster.services then Some(cluster.services[Key()]) else None
    }

    /** `is_created`: the lookup succeeds. */
    function IsCreated(): (r: bool)
      reads cluster
      ensures r <==> Key() in cluster.services
    {
      Fetch().Some?
    }

    /**
     * `requires_patch`: false when the lookup fails or the spec is missing; true when the
     * selector is empty or its pod-index label is not this unit's; false otherwise.
     */
    function RequiresPatch(): (r: bool)
      reads cluster
      ensures r <==> && Key() in cluster.services && cluster.services[Key()].spec.Some?
                     && var selector := cluster.services[Key()].spec.value.selector;
                        PodIndexLabel !in selector || selector[PodIndexLabel] != unitId
    {
      SelectorNeedsPatch(Fetch(), unitId)
    }

    /** `get_ip`: the IP of the first load-balancer ingress, `None` anywhere along the chain. */
    function GetIp(): (r: Option<string>)
      reads cluster
      ensures FirstIngress(Fetch()).None? ==> r.None?
      ensures FirstIngress(Fetch()).Some? ==> r == FirstIngress(Fetch()).value.ip
    {
      match FirstIngress(Fetch())
      case None => None
      case Some(ingress) => ingress.ip
    }

    /** `get_hostname`: the hostname of the first load-balancer ingress, `None` anywhere along the chain. */
    function GetHostname(): (r: Option<string>)
      reads cluster
      ensures FirstIngress(Fetch()).None? ==> r.None?
      ensures FirstIngress(Fetch()).Some? ==> r == FirstIngress(Fetch()).value.hostname
    {
      match FirstIngress(Fetch())
      case None => None
      case Some(ingress) => ingress.hostname
    }

    /** `create`: apply the LoadBalancer Service; no other Service changes. */
    method Create()
      modifies cluster
      ensures cluster.services == old(cluster.services)[Key() := AppliedService(old(Fetch()), namespace, serviceName, servicePort, appName)]
      ensures IsCreated()
    {
      var applied := AppliedService(Fetch(), namespace, serviceName, servicePort, appName);
      cluster.services := cluster.services[Key() := applied];
    }

    /** `patch`: select this unit's pod index. Patching a missing Service raises (`ok` false) and changes nothing. */
    method Patch() returns (ok: bool)
      modifies cluster
      ensures ok == old(IsCreated())
      ensures ok ==> cluster.services == old(cluster.services)[Key() := PatchedService(old(Fetch()).value, unitId)]
      ensures !ok ==> cluster.services == old(cluster.services)
      ensures ok ==> !RequiresPatch()
    {
      var fetched := Fetch();
      if fetched.None? {
        return false;
      }
      cluster.services := cluster.services[Key() := PatchedService(fetched.value, unitId)];
      return true;
    }

    /** `remove`: delete the Service. Deleting a missing Service raises (`ok` false); either way it is gone. */
    method Remove() returns (ok: bool)
      modifies cluster
      ensures ok == old(IsCreated())
      ensures cluster.services == old(cluster.services) - {Key()}
      ensures !IsCreated()
    {
      ok := Key() in cluster.services;
      cluster.services := cluster.services - {Key()};
    }
  }

  // ---------------------------------------------------------------- properties

  /** Applying the Service a second time leaves the object the first apply produced. */
  lemma AppliedServiceIdempotent(existing: Option<Service>, namespace: string, name: string, port: int, appName: string)
    ensures var once := AppliedService(existing, namespace, name, port, appName);
            AppliedService(Some(once), namespace, name, port, appName) == once
  {
  }

  /** After the pod-index label is set to `unitId`, the Service needs no further patch. */
  lemma PatchedNeedsNoPatch(existing: Service, unitId: string)
    ensures !SelectorNeedsPatch(Some(PatchedService(existing, unitId)), unitId)
  {
  }

  /** A Service created where none existed selects by application name only, so it needs a patch. */
  lemma AppliedNeedsPatch(namespace: string, name: string, port: int, appName: string, unitId: string)
    ensures SelectorNeedsPatch(Some(AppliedService(None, namespace, name, port, appName)), unitId)
  {
  }
}

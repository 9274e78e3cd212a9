/**
 * What the AMF charm reads and writes, and the decisions it takes on them, as values:
 * the snapshot of Juju inputs for one event, the workload container (files, directories,
 * Pebble plan, running services), the side effects a handler performs, the ordered status
 * checks, the certificate and config guards, and the N2 endpoint choice.
 */
module CharmModel {
  import opened Wrappers
  import PyStr
  import opened UnitStatus

  const SbiPort := 29518
  const NgappPort := 38412
  const SctpGrpcPort := 9000
  const DatabaseName := "sdcore_amf"
  const ConfigDirPath := "/free5gc/config"
  const ConfigFilePath := "/free5gc/config/amfcfg.conf"
  const WorkloadVersionPath := "/etc/workload-version"
  const PrivateKeyPath := "/support/TLS/amf.key"
  const CsrPath := "/support/TLS/amf.csr"
  const CertificatePath := "/support/TLS/amf.pem"
  const CoreNetworkFullName := "SDCORE5G"
  const CoreNetworkShortName := "SDCORE"
  const N2RelationName := "fiveg-n2"
  const FivegNrfRelationName := "fiveg_nrf"
  const SdcoreConfigRelationName := "sdcore_config"
  const TlsRelationName := "certificates"
  const DatabaseRelationName := "database"
  const AmfServiceName := "amf"
  const DnnConfigKey := "dnn"
  const ExternalAmfIpConfigKey := "external-amf-ip"
  const ExternalAmfHostnameConfigKey := "external-amf-hostname"

  /** The relations `_missing_relations` asks for, in the order it reports them. */
  const RequiredRelations: seq<string> :=
    [FivegNrfRelationName, DatabaseRelationName, TlsRelationName, SdcoreConfigRelationName]

  /** Python truthiness of an optional string: present and not empty. */
  predicate Truthy(o: Option<string>)
  {
    o.Some? && o.value != ""
  }

  /** `self.model.config.get(key)`. */
  function ConfigValue(config: map<string, string>, key: string): Option<string>
  {
    if key in config then Some(config[key]) else None
  }

  // ---------------------------------------------------------------- inputs and state

  /** A certificate the TLS provider assigned to this unit, with the CSR it answers. */
  datatype ProviderCertificate = ProviderCertificate(csr: string, certificate: string)

  /** What the charm reads from Juju and its relation libraries while handling one event. */
  datatype Env = Env(
    isLeader: bool,
    config: map<string, string>,
    relations: set<string>,          // endpoints with at least one relation
    databaseCreated: bool,           // DatabaseRequires.is_resource_created()
    databaseInfo: map<string, string>, // the database relation's fetched data
    nrfUrl: Option<string>,
    webuiUrl: Option<string>,
    podIp: Option<string>,           // `_get_pod_ip()`
    assignedCertificates: seq<ProviderCertificate>)

  datatype PebbleService = PebbleService(override: string, startup: string, command: string, environment: map<string, string>)

  /** The workload container as Pebble shows it. Files and directories are kept apart. */
  datatype Container = Container(
    canConnect: bool,
    files: map<string, string>,
    dirs: set<string>,
    plan: map<string, PebbleService>,
    running: set<string>)

  /** Everything a handler does to the outside world, in order. */
  datatype Effect =
    | Push(path: string, content: string)
    | RemovePath(path: string)
    | AddLayer(services: map<string, PebbleService>)
    | Replan
    | Restart(service: string)
    | RequestCertificate(csr: string)

  /** The services of a plan that a replan starts. */
  function EnabledServices(plan: map<string, PebbleService>): set<string>
  {
    set s | s in plan && plan[s].startup == "enabled"
  }

  function ApplyEffect(c: Container, e: Effect): Container
  {
    match e
    case Push(path, content) => c.(files := c.files[path := content])
    case RemovePath(path) => c.(files := c.files - {path})
    case AddLayer(services) => c.(plan := c.plan + services)
    case Replan => c.(running := c.running + EnabledServices(c.plan))
    case Restart(service) => c.(running := c.running + {service})
    case RequestCertificate(_) => c
  }

  /** The container after a sequence of effects, the last one applied last. */
  function ApplyAll(c: Container, es: seq<Effect>): Container
    decreases |es|
  {
    if es == [] then c else ApplyEffect(ApplyAll(c, es[..|es| - 1]), es[|es| - 1])
  }

  lemma ApplyAllSnoc(c: Container, es: seq<Effect>, e: Effect)
    ensures ApplyAll(c, es + [e]) == ApplyEffect(ApplyAll(c, es), e)
  {
    assert (es + [e])[..|es|] == es;
  }

  lemma ConcatAssociative(a: seq<Effect>, b: seq<Effect>, c: seq<Effect>)
    ensures a + b + c == a + (b + c)
  {
  }

  lemma {:induction false} ApplyAllConcat(c: Container, a: seq<Effect>, b: seq<Effect>)
    ensures ApplyAll(c, a + b) == ApplyAll(ApplyAll(c, a), b)
    decreases |b|
  {
    if b == [] {
      assert a + b == a;
    } else {
      var init := b[..|b| - 1];
      assert (a + b)[..|a + b| - 1] == a + init;
      ApplyAllConcat(c, a, init);
    }
  }

  // ---------------------------------------------------------------- the ordered status checks

  datatype Check =
    | Leadership
    | ContainerReachable
    | ConfigsValid
    | RelationsPresent
    | DatabaseCreated
    | DatabaseInfoAvailable
    | NrfAvailable
    | WebuiAvailable
    | StorageAttached
    | PodIpAvailable
    | CertificateAvailable
    | ServiceRunning

  /** The checks of `_on_collect_unit_status`, in the order it makes them. */
  const StatusChecks: seq<Check> := [
    Leadership, ContainerReachable, ConfigsValid, RelationsPresent, DatabaseCreated,
    DatabaseInfoAvailable, NrfAvailable, WebuiAvailable, StorageAttached, PodIpAvailable,
    CertificateAvailable, ServiceRunning]

  /** How many status checks precede the N2 publication (leadership and the readiness checks). */
  const ChecksBeforeN2 := 10

  /** How many status checks precede setting the workload version. */
  const ChecksBeforeWorkloadVersion := 3

  /** The checks of `ready_to_configure`, in its order. */
  const ReadinessChecks: seq<Check> := [
    ContainerReachable, ConfigsValid, RelationsPresent, DatabaseCreated, DatabaseInfoAvailable,
    NrfAvailable, WebuiAvailable, StorageAttached, PodIpAvailable]

  /** The relation names among `names` that have no relation, in the order of `names`. */
  function MissingFrom(names: seq<string>, relations: set<string>): (missing: seq<string>)
    ensures forall r :: r in missing <==> r in names && r !in relations
    ensures |missing| <= |names|
  {
    if names == [] then []
    else
      var last := names[|names| - 1];
      MissingFrom(names[..|names| - 1], relations) + (if last in relations then [] else [last])
  }

  /** `MissingFrom` keeps the order of the names: the missing names of `a + b` are those of `a`, then those of `b`. */
  lemma {:induction false} MissingFromConcat(a: seq<string>, b: seq<string>, relations: set<string>)
    ensures MissingFrom(a + b, relations) == MissingFrom(a, relations) + MissingFrom(b, relations)
  {
    if b == [] {
      assert a + b == a;
    } else {
      var last := b[|b| - 1];
      var front := b[..|b| - 1];
      assert (a + b)[..|a + b| - 1] == a + front;
      MissingFromConcat(a, front, relations);
      var tail := if last in relations then [] else [last];
      assert MissingFrom(a + front, relations) + tail
             == MissingFrom(a, relations) + (MissingFrom(front, relations) + tail);
    }
  }

  /** Whether one relation is missing, as a list of at most that name. */
  function MissingOne(name: string, relations: set<string>): seq<string>
  {
    if name in relations then [] else [name]
  }

  /**
   * The missing relations are reported in the fixed order fiveg_nrf, database, certificates,
   * sdcore_config, each exactly when it has no relation.
   */
  lemma MissingRelationsInOrder(relations: set<string>)
    ensures MissingFrom(RequiredRelations, relations)
            == MissingOne(FivegNrfRelationName, relations) + MissingOne(DatabaseRelationName, relations)
               + MissingOne(TlsRelationName, relations) + MissingOne(SdcoreConfigRelationName, relations)
  {
    MissingFromFour(FivegNrfRelationName, DatabaseRelationName, TlsRelationName, SdcoreConfigRelationName, relations);
  }

  /** `MissingRelationsInOrder` for any four names. */
  lemma MissingFromFour(n1: string, n2: string, n3: string, n4: string, relations: set<string>)
    ensures MissingFrom([n1, n2, n3, n4], relations)
            == MissingOne(n1, relations) + MissingOne(n2, relations) + MissingOne(n3, relations) + MissingOne(n4, relations)
  {
    assert [n1, n2, n3, n4] == [n1, n2, n3] + [n4];
    assert [n1, n2, n3] == [n1, n2] + [n3];
    assert [n1, n2] == [n1] + [n2];
    MissingFromOne(n1, relations);
    MissingFromOne(n2, relations);
    MissingFromOne(n3, relations);
    MissingFromOne(n4, relations);
    MissingFromConcat([n1, n2, n3], [n4], relations);
    MissingFromConcat([n1, n2], [n3], relations);
    MissingFromConcat([n1], [n2], relations);
  }

  lemma MissingFromOne(name: string, relations: set<string>)
    ensures MissingFrom([name], relations) == MissingOne(name, relations)
  {
    assert [name][..0] == [];
  }

  /** The config keys `_get_invalid_configs` reports. */
  function InvalidConfigsOf(config: map<string, string>): (invalid: seq<string>)
    ensures forall k :: k in invalid ==> k == DnnConfigKey
    ensures DnnConfigKey in invalid <==> DnnConfigKey !in config || config[DnnConfigKey] == ""
  {
    if Truthy(ConfigValue(config, DnnConfigKey)) then [] else [DnnConfigKey]
  }

  /** `_amf_service_is_running`: the container answers, the plan has the service, and it runs. */
  function AmfServiceIsRunning(c: Container): (r: bool)
    ensures !c.canConnect ==> !r
    ensures c.canConnect ==> (r <==> AmfServiceName in c.plan && AmfServiceName in c.running)
  {
    c.canConnect && AmfServiceName in c.plan && AmfServiceName in c.running
  }

  /** The index of the first provider certificate that answers `csr`, or `|certs|`. */
  function FirstMatchIndex(certs: seq<ProviderCertificate>, csr: string): (k: nat)
    ensures k <= |certs|
    ensures forall j :: 0 <= j < k ==> certs[j].csr != csr
    ensures k < |certs| ==> certs[k].csr == csr
  {
    if certs == [] then 0
    else if certs[0].csr == csr then 0
    else 1 + FirstMatchIndex(certs[1..], csr)
  }

  /** The certificate `_get_current_provider_certificate` returns for the stored CSR. */
  function FirstCertificateFor(certs: seq<ProviderCertificate>, csr: string): (r: Option<string>)
    ensures r.None? <==> FirstMatchIndex(certs, csr) == |certs|
    ensures r.Some? ==> r.value == certs[FirstMatchIndex(certs, csr)].certificate
  {
    var k := FirstMatchIndex(certs, csr);
    if k < |certs| then Some(certs[k].certificate) else None
  }

  predicate Passes(check: Check, env: Env, c: Container)
  {
    match check
    case Leadership => env.isLeader
    case ContainerReachable => c.canConnect
    case ConfigsValid => InvalidConfigsOf(env.config) == []
    case RelationsPresent => MissingFrom(RequiredRelations, env.relations) == []
    case DatabaseCreated => env.databaseCreated
    case DatabaseInfoAvailable => |env.databaseInfo| > 0
    case NrfAvailable => Truthy(env.nrfUrl)
    case WebuiAvailable => Truthy(env.webuiUrl)
    case StorageAttached => ConfigDirPath in c.dirs
    case PodIpAvailable => Truthy(env.podIp)
    case CertificateAvailable =>
      CsrPath !in c.files || Truthy(FirstCertificateFor(env.assignedCertificates, c.files[CsrPath]))
    case ServiceRunning => AmfServiceIsRunning(c)
  }

  /** The index of the first check of `checks` that fails, or `|checks|` when all pass. */
  function FirstFailingIndex(checks: seq<Check>, env: Env, c: Container): (k: nat)
    ensures k <= |checks|
    ensures forall j :: 0 <= j < k ==> Passes(checks[j], env, c)
    ensures k < |checks| ==> !Passes(checks[k], env, c)
  {
    if checks == [] then 0
    else if !Passes(checks[0], env, c) then 0
    else 1 + FirstFailingIndex(checks[1..], env, c)
  }

  /** The first `k` status checks pass. */
  predicate PassesFirst(k: nat, env: Env, c: Container)
    requires k <= |StatusChecks|
  {
    forall j :: 0 <= j < k ==> Passes(StatusChecks[j], env, c)
  }

  lemma PassesOneMore(k: nat, env: Env, c: Container)
    requires k < |StatusChecks| && PassesFirst(k, env, c) && Passes(StatusChecks[k], env, c)
    ensures PassesFirst(k + 1, env, c)
  {
  }

  /** When the first `k` checks pass and the next fails (or there is none), `k` is the first failing index. */
  lemma FirstFailingIs(k: nat, env: Env, c: Container)
    requires k <= |StatusChecks| && PassesFirst(k, env, c)
    requires k < |StatusChecks| ==> !Passes(StatusChecks[k], env, c)
    ensures FirstFailingIndex(StatusChecks, env, c) == k
  {
  }

  const MetalLbStatus := Blocked("Waiting for MetalLB to be enabled")

  /** The status each check sets when it is the first to fail. */
  function FailureStatus(check: Check, env: Env): Status
  {
    match check
    case Leadership => Blocked("Scaling is not implemented for this charm")
    case ContainerReachable => Maintenance("Waiting for service to start")
    case ConfigsValid =>
      Blocked("The following configurations are not valid: " + PyStr.ListRepr(InvalidConfigsOf(env.config)))
    case RelationsPresent =>
      Blocked("Waiting for " + PyStr.Join(MissingFrom(RequiredRelations, env.relations), ", ") + " relation(s)")
    case DatabaseCreated => Waiting("Waiting for the amf database to be available")
    case DatabaseInfoAvailable => Waiting("Waiting for AMF database info to be available")
    case NrfAvailable => Waiting("Waiting for NRF data to be available")
    case WebuiAvailable => Waiting("Waiting for Webui data to be available")
    case StorageAttached => Waiting("Waiting for storage to be attached")
    case PodIpAvailable => Waiting("Waiting for pod IP address to be available")
    case CertificateAvailable => Waiting("Waiting for certificates to be stored")
    case ServiceRunning => Waiting("Waiting for AMF service to start")
  }

  /** The last status the collect-status handler adds when the first failing check is `StatusChecks[k]`. */
  function FinalStatus(k: nat, env: Env): Status
  {
    if k < |StatusChecks| then FailureStatus(StatusChecks[k], env) else Active("")
  }

  /** `ready_to_configure`: the early-return chain from container reachability to the pod IP. */
  function ReadyToConfigure(env: Env, c: Container): (r: bool)
    ensures r ==> c.canConnect && ConfigDirPath in c.dirs && env.databaseCreated && |env.databaseInfo| > 0
    ensures r ==> Truthy(env.nrfUrl) && Truthy(env.webuiUrl) && Truthy(env.podIp)
    ensures r ==> InvalidConfigsOf(env.config) == [] && MissingFrom(RequiredRelations, env.relations) == []
  {
    if !c.canConnect then false
    else if InvalidConfigsOf(env.config) != [] then false
    else if MissingFrom(RequiredRelations, env.relations) != [] then false
    else if !env.databaseCreated then false
    else if |env.databaseInfo| == 0 then false
    else if !Truthy(env.nrfUrl) then false
    else if !Truthy(env.webuiUrl) then false
    else if ConfigDirPath !in c.dirs then false
    else if !Truthy(env.podIp) then false
    else true
  }

  /** `ready_to_configure` holds exactly when every readiness check passes. */
  lemma ReadyToConfigureIffChecksPass(env: Env, c: Container)
    ensures ReadyToConfigure(env, c) <==>
              forall i :: 0 <= i < |ReadinessChecks| ==> Passes(ReadinessChecks[i], env, c)
  {
    // the first failing link of the chain is the readiness check of the same position
    var failing :=
      if !c.canConnect then 0
      else if InvalidConfigsOf(env.config) != [] then 1
      else if MissingFrom(RequiredRelations, env.relations) != [] then 2
      else if !env.databaseCreated then 3
      else if |env.databaseInfo| == 0 then 4
      else if !Truthy(env.nrfUrl) then 5
      else if !Truthy(env.webuiUrl) then 6
      else if ConfigDirPath !in c.dirs then 7
      else if !Truthy(env.podIp) then 8
      else 9;
    if failing < 9 {
      assert !Passes(ReadinessChecks[failing], env, c);
    }
  }

  /** `_get_workload_version`: the version file's content when the file exists and is not empty. */
  function WorkloadVersion(c: Container): (r: Option<string>)
    ensures r.Some? <==> WorkloadVersionPath in c.files && c.files[WorkloadVersionPath] != ""
    ensures r.Some? ==> r.value == c.files[WorkloadVersionPath]
  {
    if WorkloadVersionPath in c.files && c.files[WorkloadVersionPath] != "" then Some(c.files[WorkloadVersionPath])
    else None
  }

  // ---------------------------------------------------------------- N2 endpoint

  /** The record the charm hands to its fiveg_n2 provider. */
  datatype N2Request = N2Request(amfIpAddress: Option<string>, amfHostname: string, amfPort: int)

  /** The name the charm gives its external Service. */
  function ExternalServiceName(appName: string): string
  {
    appName + "-external"
  }

  /** `_amf_hostname`: the cluster DNS name of the external Service in the model's namespace. */
  function AmfHostname(appName: string, modelName: string): (r: string)
    ensures r == ExternalServiceName(appName) + "." + modelName + ".svc.cluster.local"
    ensures |r| > |appName|
  {
    appName + "-external." + modelName + ".svc.cluster.local"
  }

  /** `_get_n2_amf_ip`: the `external-amf-ip` config when set, else the load balancer's IP. */
  function N2AmfIp(config: map<string, string>, lbIp: Option<string>): (r: Option<string>)
    ensures Truthy(ConfigValue(config, ExternalAmfIpConfigKey)) ==> r == ConfigValue(config, ExternalAmfIpConfigKey)
    ensures !Truthy(ConfigValue(config, ExternalAmfIpConfigKey)) ==> r == lbIp
  {
    var configured := ConfigValue(config, ExternalAmfIpConfigKey);
    if Truthy(configured) then configured else lbIp
  }

  /**
   * `_get_n2_amf_hostname`: the `external-amf-hostname` config when set, else the load
   * balancer's hostname when set, else the internal FQDN. Never empty.
   */
  function N2AmfHostname(config: map<string, string>, lbHostname: Option<string>, appName: string, modelName: string)
    : (r: string)
    ensures r != ""
    ensures Truthy(ConfigValue(config, ExternalAmfHostnameConfigKey)) ==>
              r == ConfigValue(config, ExternalAmfHostnameConfigKey).value
    ensures !Truthy(ConfigValue(config, ExternalAmfHostnameConfigKey)) && Truthy(lbHostname) ==> r == lbHostname.value
    ensures !Truthy(ConfigValue(config, ExternalAmfHostnameConfigKey)) && !Truthy(lbHostname) ==>
              r == AmfHostname(appName, modelName)
  {
    var configured := ConfigValue(config, ExternalAmfHostnameConfigKey);
    if Truthy(configured) then configured.value
    else if Truthy(lbHostname) then lbHostname.value
    else AmfHostname(appName, modelName)
  }

  /**
   * `_set_n2_information`: nothing is handed to the provider unless the fiveg-n2 relation
   * exists and the AMF service runs; otherwise the record carries the chosen IP and hostname
   * and the NGAP port.
   */
  function N2Publication(env: Env, c: Container, lbIp: Option<string>, lbHostname: Option<string>, appName: string, modelName: string)
    : (r: Option<N2Request>)
    ensures r.Some? <==> N2RelationName in env.relations && AmfServiceIsRunning(c)
    ensures r.Some? ==> r.value.amfPort == NgappPort
                        && r.value.amfIpAddress == N2AmfIp(env.config, lbIp)
                        && r.value.amfHostname == N2AmfHostname(env.config, lbHostname, appName, modelName)
  {
    if N2RelationName !in env.relations then None
    else if !AmfServiceIsRunning(c) then None
    else Some(N2Request(N2AmfIp(env.config, lbIp), N2AmfHostname(env.config, lbHostname, appName, modelName), NgappPort))
  }

  // ---------------------------------------------------------------- certificates, config, Pebble

  /** `_get_existing_certificate`: the stored certificate, "" when there is none. */
  function ExistingCertificate(c: Container): (r: string)
    ensures CertificatePath in c.files ==> r == c.files[CertificatePath]
    ensures CertificatePath !in c.files ==> r == ""
  {
    if CertificatePath in c.files then c.files[CertificatePath] else ""
  }

  /** `_is_certificate_update_required`: the provider's certificate differs from the stored one. */
  function IsCertificateUpdateRequired(c: Container, providerCertificate: string): (r: bool)
    ensures CertificatePath in c.files ==> (r <==> c.files[CertificatePath] != providerCertificate)
    ensures CertificatePath !in c.files ==> (r <==> providerCertificate != "")
  {
    ExistingCertificate(c) != providerCertificate
  }

  /** `_is_config_update_required`: the config file is absent or its content differs. */
  function IsConfigUpdateRequired(c: Container, content: string): (r: bool)
    ensures !r <==> ConfigFilePath in c.files && c.files[ConfigFilePath] == content
  {
    ConfigFilePath !in c.files || c.files[ConfigFilePath] != content
  }

  /** The template arguments of `_render_config_file`. */
  datatype ConfigContext = ConfigContext(
    ngappPort: int, sctpGrpcPort: int, sbiPort: int, nrfUrl: string, amfIp: string,
    databaseName: string, databaseUrl: string, fullNetworkName: string, shortNetworkName: string,
    dnn: string, scheme: string, webuiUri: string)

  /**
   * The arguments `_generate_amf_config_file` renders with; `None` where it raises: an empty
   * DNN (ValueError) or database data without "uris" (KeyError). The database URL is the
   * first of the comma-separated URIs.
   */
  function ConfigContextFor(env: Env): (r: Option<ConfigContext>)
    requires env.nrfUrl.Some? && env.webuiUrl.Some? && env.podIp.Some?
    ensures r.Some? <==> Truthy(ConfigValue(env.config, DnnConfigKey)) && "uris" in env.databaseInfo
    ensures r.Some? ==> r.value.dnn == env.config[DnnConfigKey] && r.value.amfIp == env.podIp.value
                        && r.value.nrfUrl == env.nrfUrl.value && r.value.webuiUri == env.webuiUrl.value
    ensures r.Some? ==> var uris := env.databaseInfo["uris"];
                        && r.value.databaseUrl <= uris && ',' !in r.value.databaseUrl
                        && (r.value.databaseUrl == uris || uris[|r.value.databaseUrl|] == ',')
    ensures r.Some? ==> r.value.ngappPort == NgappPort && r.value.sctpGrpcPort == SctpGrpcPort
                        && r.value.sbiPort == SbiPort && r.value.databaseName == DatabaseName
                        && r.value.fullNetworkName == CoreNetworkFullName
                        && r.value.shortNetworkName == CoreNetworkShortName && r.value.scheme == "https"
  {
    var dnn := ConfigValue(env.config, DnnConfigKey);
    if !Truthy(dnn) then None
    else if "uris" !in env.databaseInfo then None
    else Some(ConfigContext(
      NgappPort, SctpGrpcPort, SbiPort, env.nrfUrl.value, env.podIp.value, DatabaseName,
      PyStr.FirstField(env.databaseInfo["uris"], ','), CoreNetworkFullName, CoreNetworkShortName,
      dnn.value, "https", env.webuiUrl.value))
  }

  /** `_generate_amf_config_file`: the rendered content, `None` where it raises. */
  function DesiredConfig(env: Env, render: ConfigContext -> string): Option<string>
    requires env.nrfUrl.Some? && env.webuiUrl.Some? && env.podIp.Some?
  {
    match ConfigContextFor(env)
    case None => None
    case Some(context) => Some(render(context))
  }

  /** `_amf_environment_variables`. */
  function AmfEnvironment(podIp: string): map<string, string>
  {
    map[
      "GOTRACEBACK" := "crash",
      "GRPC_GO_LOG_VERBOSITY_LEVEL" := "99",
      "GRPC_GO_LOG_SEVERITY_LEVEL" := "info",
      "GRPC_TRACE" := "all",
      "GRPC_VERBOSITY" := "DEBUG",
      "POD_IP" := podIp,
      "MANAGED_BY_CONFIG_POD" := "true"]
  }

  /** The services of `_amf_pebble_layer`. */
  function AmfLayerServices(podIp: string): (services: map<string, PebbleService>)
    ensures services.Keys == {AmfServiceName}
    ensures EnabledServices(services) == {AmfServiceName}
  {
    var services := map[AmfServiceName := PebbleService(
      "replace", "enabled", "/bin/amf --amfcfg " + ConfigFilePath, AmfEnvironment(podIp))];
    assert AmfServiceName in EnabledServices(services);
    services
  }

  /** `_configure_pebble`: add the layer and replan when the plan differs; then restart or replan. */
  function PebbleEffects(plan: map<string, PebbleService>, layer: map<string, PebbleService>, restart: bool)
    : (r: seq<Effect>)
    ensures Restart(AmfServiceName) in r <==> restart
    ensures AddLayer(layer) in r <==> plan != layer
    ensures forall i :: 0 <= i < |r| ==> r[i] == AddLayer(layer) || r[i] == Replan || r[i] == Restart(AmfServiceName)
    ensures r != [] && r[|r| - 1] == (if restart then Restart(AmfServiceName) else Replan)
  {
    (if plan != layer then [AddLayer(layer), Replan] else [])
    + (if restart then [Restart(AmfServiceName)] else [Replan])
  }

  /** Where `_configure_amf` stops. */
  datatype ReconcileStop =
    | NotReady              // preconditions not met: return
    | NoProviderCertificate // no assigned certificate answers the stored CSR: return
    | ConfigRenderRaised    // `_generate_amf_config_file` raised
    | Configured            // ran to the N2 publication

  datatype Reconciliation = Reconciliation(effects: seq<Effect>, stop: ReconcileStop)

  /** The four files the charm writes are distinct paths. */
  lemma PathsDistinct()
    ensures PrivateKeyPath != CsrPath && PrivateKeyPath != CertificatePath && CsrPath != CertificatePath
    ensures ConfigFilePath != PrivateKeyPath && ConfigFilePath != CsrPath && ConfigFilePath != CertificatePath
  {
    assert PrivateKeyPath[19] != CsrPath[19] && PrivateKeyPath[19] != CertificatePath[19] && CsrPath[19] != CertificatePath[19];
    assert |ConfigFilePath| != |PrivateKeyPath|;
  }

  /** The content a path holds, or `generated` when there is none. */
  function StoredOr(c: Container, path: string, generated: string): string
  {
    if path in c.files then c.files[path] else generated
  }

  /** The CSR `_store_csr` writes for a CSR generated from `privateKey`: stripped. */
  function StrippedCsr(privateKey: string, generateCsr: string -> string): string
  {
    PyStr.Strip(generateCsr(privateKey))
  }

  /** `_request_new_certificate` from a private key: store the stripped CSR, then request a certificate for it. */
  function CsrRequestEffects(privateKey: string, generateCsr: string -> string): seq<Effect>
  {
    [Push(CsrPath, StrippedCsr(privateKey, generateCsr)), RequestCertificate(generateCsr(privateKey))]
  }

  /** `_generate_private_key` when no key is stored. */
  function KeyEffects(c: Container, freshKey: string): seq<Effect>
  {
    if PrivateKeyPath in c.files then [] else [Push(PrivateKeyPath, freshKey)]
  }

  /** `_request_new_certificate` when no CSR is stored, from the key stored by then. */
  function CsrEffects(c: Container, freshKey: string, generateCsr: string -> string): seq<Effect>
  {
    if CsrPath in c.files then [] else CsrRequestEffects(StoredOr(c, PrivateKeyPath, freshKey), generateCsr)
  }

  /** The CSR stored once the key and CSR steps are done. */
  function StoredCsr(c: Container, freshKey: string, generateCsr: string -> string): string
  {
    StoredOr(c, CsrPath, StrippedCsr(StoredOr(c, PrivateKeyPath, freshKey), generateCsr))
  }

  /** `_store_certificate` when the provider's certificate differs from the stored one. */
  function CertificateEffects(c: Container, certificate: string): seq<Effect>
  {
    if IsCertificateUpdateRequired(c, certificate) then [Push(CertificatePath, certificate)] else []
  }

  /** `_push_config_file` when the rendered content differs from the file. */
  function ConfigEffects(c: Container, content: string): seq<Effect>
  {
    if IsConfigUpdateRequired(c, content) then [Push(ConfigFilePath, content)] else []
  }

  /**
   * The effects of `_configure_amf` once a provider certificate answers the stored CSR: store
   * the certificate and the rendered config where they differ, then configure Pebble,
   * restarting when either changed.
   */
  function InstallEffects(c: Container, env: Env, certificate: string, render: ConfigContext -> string): Reconciliation
    requires env.nrfUrl.Some? && env.webuiUrl.Some? && env.podIp.Some?
  {
    var certificateEffects := CertificateEffects(c, certificate);
    match DesiredConfig(env, render)
    case None => Reconciliation(certificateEffects, ConfigRenderRaised)
    case Some(content) =>
      var configEffects := ConfigEffects(c, content);
      var restart := certificateEffects != [] || configEffects != [];
      Reconciliation(
        certificateEffects + configEffects + PebbleEffects(c.plan, AmfLayerServices(env.podIp.value), restart),
        Configured)
  }

  /** `InstallEffects` once the config renders: restart exactly when the certificate or the config changes. */
  lemma InstallEffectsRendered(c: Container, env: Env, certificate: string, render: ConfigContext -> string, content: string)
    requires env.nrfUrl.Some? && env.webuiUrl.Some? && env.podIp.Some?
    requires DesiredConfig(env, render) == Some(content)
    ensures var restart := IsCertificateUpdateRequired(c, certificate) || IsConfigUpdateRequired(c, content);
            InstallEffects(c, env, certificate, render)
            == Reconciliation(
                 CertificateEffects(c, certificate)
                 + (ConfigEffects(c, content) + PebbleEffects(c.plan, AmfLayerServices(env.podIp.value), restart)),
                 Configured)
  {
    ConcatAssociative(CertificateEffects(c, certificate), ConfigEffects(c, content),
                      PebbleEffects(c.plan, AmfLayerServices(env.podIp.value),
                                    IsCertificateUpdateRequired(c, certificate) || IsConfigUpdateRequired(c, content)));
  }

  /** Writing the key and the CSR does not change what `InstallEffects` decides. */
  lemma InstallEffectsIgnoresKeyAndCsr(c: Container, key: string, csr: string, env: Env, certificate: string, render: ConfigContext -> string)
    requires env.nrfUrl.Some? && env.webuiUrl.Some? && env.podIp.Some?
    ensures InstallEffects(c.(files := c.files[PrivateKeyPath := key][CsrPath := csr]), env, certificate, render)
            == InstallEffects(c, env, certificate, render)
  {
    PathsDistinct();
  }

  /**
   * The effects of `_configure_amf` once the preconditions hold: store the key and the CSR
   * where absent, then install the certificate that answers the stored CSR, if one does.
   */
  function ConfigureEffects(c: Container, env: Env, freshKey: string, generateCsr: string -> string, render: ConfigContext -> string)
    : Reconciliation
    requires env.nrfUrl.Some? && env.webuiUrl.Some? && env.podIp.Some?
  {
    var prefix := KeyEffects(c, freshKey) + CsrEffects(c, freshKey, generateCsr);
    var certificate := FirstCertificateFor(env.assignedCertificates, StoredCsr(c, freshKey, generateCsr));
    if !Truthy(certificate) then Reconciliation(prefix, NoProviderCertificate)
    else
      var install := InstallEffects(c, env, certificate.value, render);
      Reconciliation(prefix + install.effects, install.stop)
  }

  /**
   * The effects of `_configure_amf` after the Service step, from the container `c` it starts
   * with. `freshKey` is what `generate_private_key` would return; `generateCsr` and `render`
   * stand for `generate_csr` and the Jinja2 template.
   */
  function Reconcile(c: Container, env: Env, freshKey: string, generateCsr: string -> string, render: ConfigContext -> string)
    : (r: Reconciliation)
    ensures !ReadyToConfigure(env, c) ==> r == Reconciliation([], NotReady)
    ensures ReadyToConfigure(env, c) ==> r.stop != NotReady
  {
    if !ReadyToConfigure(env, c) then Reconciliation([], NotReady)
    else ConfigureEffects(c, env, freshKey, generateCsr, render)
  }

  /** `_on_certificates_relation_broken` once the container answers: delete each TLS file that exists. */
  function TeardownEffects(c: Container): (r: seq<Effect>)
    ensures forall e :: e in r ==>
              && e.RemovePath? && e.path in c.files
              && (e.path == PrivateKeyPath || e.path == CsrPath || e.path == CertificatePath)
    ensures PrivateKeyPath in c.files ==> RemovePath(PrivateKeyPath) in r
    ensures CsrPath in c.files ==> RemovePath(CsrPath) in r
    ensures CertificatePath in c.files ==> RemovePath(CertificatePath) in r
  {
    RemoveIfPresent(c, PrivateKeyPath) + RemoveIfPresent(c, CsrPath) + RemoveIfPresent(c, CertificatePath)
  }

  /** A `_delete_*` helper: remove the file when it exists. */
  function RemoveIfPresent(c: Container, path: string): seq<Effect>
  {
    if path in c.files then [RemovePath(path)] else []
  }

  /** Removing one file does not change whether another is removed. */
  lemma RemoveIfPresentOther(c: Container, removed: string, path: string)
    requires removed != path
    ensures RemoveIfPresent(c.(files := c.files - {removed}), path) == RemoveIfPresent(c, path)
  {
  }

  /** How an event handler ends. */
  datatype HandlerOutcome =
    | Completed
    | Deferred  // `event.defer()`: the container does not answer yet
    | Raised    // an uncaught exception (a file the handler pulls is missing)
}

/**
 * The AMF operator charm: its event handlers over the workload container, the external
 * Service and the Juju inputs of one event. Every change to the container goes through
 * `Emit`, which applies one effect and records it; each handler is specified by the effects
 * it records, computed from the state it started in.
 */
module AmfCharm {
  import opened Wrappers
  import PyStr
  import K8s
  import opened UnitStatus
  import opened CharmModel

  /** `_get_current_provider_certificate` over the stored CSR: the first assigned certificate answering it. */
  method FindProviderCertificate(certs: seq<ProviderCertificate>, csr: string) returns (certificate: Option<string>)
    ensures certificate == FirstCertificateFor(certs, csr)
    ensures certificate.Some? <==> exists i :: 0 <= i < |certs| && certs[i].csr == csr
    ensures certificate.Some? ==>
              exists i :: 0 <= i < |certs| && certs[i].csr == csr && certificate.value == certs[i].certificate
                          && forall j :: 0 <= j < i ==> certs[j].csr != csr
  {
    var i := 0;
    while i < |certs|
      invariant 0 <= i <= |certs|
      invariant forall j :: 0 <= j < i ==> certs[j].csr != csr
    {
      if certs[i].csr == csr {
        return Some(certs[i].certificate);
      }
      i := i + 1;
    }
    return None;
  }

  class AmfOperatorCharm {
    const appName: string
    const modelName: string
    const k8s: K8s.K8sService
    /** The Jinja2 template of the AMF configuration file. */
    const render: ConfigContext -> string
    /** `generate_csr` for the AMF's common name, from a private key. */
    const generateCsr: string -> string
    /** Whether the fiveg_n2 provider library takes the record (it raises ValueError otherwise). */
    const providerAccepts: N2Request -> bool
    var container: Container
    /** Every effect performed so far, oldest first. */
    var effects: seq<Effect>

    constructor (appName: string, modelName: string, unitId: string, cluster: K8s.Cluster,
                 render: ConfigContext -> string, generateCsr: string -> string,
                 providerAccepts: N2Request -> bool, container: Container)
      ensures this.appName == appName && this.modelName == modelName
      ensures k8s.cluster == cluster && k8s.namespace == modelName && k8s.serviceName == ExternalServiceName(appName)
      ensures k8s.servicePort == NgappPort && k8s.appName == appName && k8s.unitId == unitId
      ensures this.render == render && this.generateCsr == generateCsr && this.providerAccepts == providerAccepts
      ensures this.container == container && effects == []
    {
      this.appName := appName;
      this.modelName := modelName;
      this.k8s := new K8s.K8sService(cluster, modelName, ExternalServiceName(appName), NgappPort, appName, unitId);
      this.render := render;
      this.generateCsr := generateCsr;
      this.providerAccepts := providerAccepts;
      this.container := container;
      this.effects := [];
    }

    /**
     * Perform one effect on the container and record it. The ghost `done` is what the
     * calling handler has performed since it started from `c0`.
     */
    method Emit(e: Effect, ghost c0: Container, ghost done: seq<Effect>)
      requires container == ApplyAll(c0, done)
      modifies this
      ensures effects == old(effects) + [e]
      ensures container == ApplyEffect(old(container), e)
      ensures container == ApplyAll(c0, done + [e])
    {
      ApplyAllSnoc(c0, done, e);
      container := ApplyEffect(container, e);
      effects := effects + [e];
    }

    /**
     * `_set_n2_information`: the record handed to the provider, if any. Without the
     * `external-amf-ip` config the IP is the one the Service's first load-balancer ingress
     * reports, `None` when there is none.
     */
    function SetN2Information(env: Env): (r: Option<N2Request>)
      reads this, k8s.cluster
      ensures r.Some? <==> N2RelationName in env.relations && AmfServiceIsRunning(container)
      ensures r.Some? ==> r.value.amfPort == NgappPort
                          && r.value.amfHostname == N2AmfHostname(env.config, k8s.GetHostname(), appName, modelName)
      ensures r.Some? && Truthy(ConfigValue(env.config, ExternalAmfIpConfigKey)) ==>
                r.value.amfIpAddress == ConfigValue(env.config, ExternalAmfIpConfigKey)
      ensures r.Some? && !Truthy(ConfigValue(env.config, ExternalAmfIpConfigKey)) ==>
                var ingress := K8s.FirstIngress(k8s.Fetch());
                r.value.amfIpAddress == (if ingress.Some? then ingress.value.ip else None)
    {
      N2Publication(env, container, k8s.GetIp(), k8s.GetHostname(), appName, modelName)
    }

    /** `_missing_relations`: the required relations that do not exist, in their fixed order. */
    method MissingRelations(env: Env) returns (missing: seq<string>)
      ensures missing == MissingFrom(RequiredRelations, env.relations)
      ensures forall r :: r in missing <==> r in RequiredRelations && r !in env.relations
      ensures missing == MissingOne(FivegNrfRelationName, env.relations) + MissingOne(DatabaseRelationName, env.relations)
                         + MissingOne(TlsRelationName, env.relations) + MissingOne(SdcoreConfigRelationName, env.relations)
    {
      missing := [];
      var i := 0;
      while i < |RequiredRelations|
        invariant 0 <= i <= |RequiredRelations|
        invariant missing == MissingFrom(RequiredRelations[..i], env.relations)
      {
        assert RequiredRelations[..i + 1][..i] == RequiredRelations[..i];
        if RequiredRelations[i] !in env.relations {
          missing := missing + [RequiredRelations[i]];
        }
        i := i + 1;
      }
      assert RequiredRelations[..i] == RequiredRelations;
      MissingRelationsInOrder(env.relations);
    }

    /** `_get_invalid_configs`: "dnn" when the DNN is unset or empty, nothing otherwise. */
    method InvalidConfigs(env: Env) returns (invalid: seq<string>)
      ensures invalid == InvalidConfigsOf(env.config)
      ensures invalid == [] <==> Truthy(ConfigValue(env.config, DnnConfigKey))
      ensures invalid != [] ==> invalid == [DnnConfigKey]
    {
      invalid := [];
      if !Truthy(ConfigValue(env.config, DnnConfigKey)) {
        invalid := invalid + [DnnConfigKey];
      }
    }

    /**
     * `_request_new_certificate`: generate a CSR from the stored private key, store it
     * stripped, and request a certificate for it.
     */
    method RequestNewCertificate(ghost c0: Container, ghost done: seq<Effect>) returns (ghost done': seq<Effect>)
      requires PrivateKeyPath in container.files
      requires container == ApplyAll(c0, done)
      modifies this
      ensures done' == done + CsrRequestEffects(old(container).files[PrivateKeyPath], generateCsr)
      ensures effects == old(effects) + CsrRequestEffects(old(container).files[PrivateKeyPath], generateCsr)
      ensures container == ApplyAll(c0, done')
      ensures container == old(container).(files := old(container).files[CsrPath := StrippedCsr(old(container).files[PrivateKeyPath], generateCsr)])
    {
      var requested := CsrRequestEffects(container.files[PrivateKeyPath], generateCsr);
      Emit(requested[0], c0, done);  // `_store_csr`
      Emit(requested[1], c0, done + [requested[0]]);  // `request_certificate_creation`
      done' := done + requested;
      assert done + [requested[0]] + [requested[1]] == done';
    }

    /** The layer step of `_configure_pebble`: add the AMF layer and replan when the plan differs from it. */
    method UpdateLayer(layer: map<string, PebbleService>, ghost c0: Container, ghost done: seq<Effect>)
      returns (ghost done': seq<Effect>)
      requires container == ApplyAll(c0, done)
      modifies this
      ensures var es := if old(container).plan != layer then [AddLayer(layer), Replan] else [];
              && done' == done + es
              && effects == old(effects) + es
      ensures container == ApplyAll(c0, done')
    {
      done' := done;
      if container.plan != layer {
        Emit(AddLayer(layer), c0, done');
        done' := done' + [AddLayer(layer)];
        Emit(Replan, c0, done');
        done' := done' + [Replan];
      }
    }

    /** `_configure_pebble`: the effects of `PebbleEffects` on the current plan. */
    method ConfigurePebble(podIp: string, restart: bool, ghost c0: Container, ghost done: seq<Effect>)
      returns (ghost done': seq<Effect>)
      requires container == ApplyAll(c0, done)
      modifies this
      ensures done' == done + PebbleEffects(old(container).plan, AmfLayerServices(podIp), restart)
      ensures effects == old(effects) + PebbleEffects(old(container).plan, AmfLayerServices(podIp), restart)
      ensures container == ApplyAll(c0, done')
    {
      var layer := AmfLayerServices(podIp);
      ghost var layerEffects := if container.plan != layer then [AddLayer(layer), Replan] else [];
      ghost var e0 := effects;
      done' := UpdateLayer(layer, c0, done);
      var last := if restart then Restart(AmfServiceName) else Replan;
      Emit(last, c0, done');
      done' := done' + [last];
      assert PebbleEffects(old(container).plan, layer, restart) == layerEffects + [last];
    }

    /** The key and CSR steps of `_configure_amf`: generate and store whichever is missing. */
    method StoreKeyAndCsr(freshKey: string, ghost c0: Container, ghost done: seq<Effect>) returns (ghost done': seq<Effect>)
      requires container == ApplyAll(c0, done)
      modifies this
      ensures done' == done + KeyEffects(old(container), freshKey) + CsrEffects(old(container), freshKey, generateCsr)
      ensures effects == old(effects) + KeyEffects(old(container), freshKey) + CsrEffects(old(container), freshKey, generateCsr)
      ensures container == ApplyAll(c0, done')
      ensures container == old(container).(files := old(container).files
                [PrivateKeyPath := StoredOr(old(container), PrivateKeyPath, freshKey)]
                [CsrPath := StoredCsr(old(container), freshKey, generateCsr)])
    {
      PathsDistinct();
      done' := done;
      if PrivateKeyPath !in container.files {
        Emit(Push(PrivateKeyPath, freshKey), c0, done');  // `_generate_private_key`
        done' := done' + [Push(PrivateKeyPath, freshKey)];
      }
      if CsrPath !in container.files {
        done' := RequestNewCertificate(c0, done');
      }
    }

    /** `_store_certificate` when the provider's certificate differs from the stored one. */
    method StoreCertificate(certificate: string, ghost c0: Container, ghost done: seq<Effect>)
      returns (updated: bool, ghost done': seq<Effect>)
      requires container == ApplyAll(c0, done)
      modifies this
      ensures updated == IsCertificateUpdateRequired(old(container), certificate)
      ensures done' == done + CertificateEffects(old(container), certificate)
      ensures effects == old(effects) + CertificateEffects(old(container), certificate)
      ensures container == ApplyAll(c0, done')
      ensures container == if updated then old(container).(files := old(container).files[CertificatePath := certificate])
                           else old(container)
    {
      done' := done;
      updated := IsCertificateUpdateRequired(container, certificate);
      if updated {
        Emit(Push(CertificatePath, certificate), c0, done');
        done' := done' + [Push(CertificatePath, certificate)];
      }
    }

    /** `_push_config_file` when the rendered content differs from the config file, or there is none. */
    method PushConfig(content: string, ghost c0: Container, ghost done: seq<Effect>)
      returns (updated: bool, ghost done': seq<Effect>)
      requires container == ApplyAll(c0, done)
      modifies this
      ensures updated == IsConfigUpdateRequired(old(container), content)
      ensures done' == done + ConfigEffects(old(container), content)
      ensures effects == old(effects) + ConfigEffects(old(container), content)
      ensures container == ApplyAll(c0, done')
      ensures container == if updated then old(container).(files := old(container).files[ConfigFilePath := content])
                           else old(container)
    {
      done' := done;
      updated := IsConfigUpdateRequired(container, content);
      if updated {
        Emit(Push(ConfigFilePath, content), c0, done');
        done' := done' + [Push(ConfigFilePath, content)];
      }
    }

    /** `_push_config_file` when the content differs, then `_configure_pebble`. */
    method PushConfigAndConfigurePebble(content: string, podIp: string, certificateUpdated: bool,
                                        ghost c0: Container, ghost done: seq<Effect>)
      returns (ghost done': seq<Effect>)
      requires container == ApplyAll(c0, done)
      modifies this
      ensures var restart := certificateUpdated || IsConfigUpdateRequired(old(container), content);
              var pushed := ConfigEffects(old(container), content) + PebbleEffects(old(container).plan, AmfLayerServices(podIp), restart);
              && done' == done + pushed
              && effects == old(effects) + pushed
      ensures container == ApplyAll(c0, done')
    {
      ghost var start := container;
      ghost var e0 := effects;
      var configUpdateRequired;
      configUpdateRequired, done' := PushConfig(content, c0, done);
      assert container.plan == start.plan;
      ghost var configEffects := ConfigEffects(start, content);
      ghost var pebbleEffects := PebbleEffects(start.plan, AmfLayerServices(podIp), certificateUpdated || configUpdateRequired);
      done' := ConfigurePebble(podIp, certificateUpdated || configUpdateRequired, c0, done');
      ConcatAssociative(done, configEffects, pebbleEffects);
      ConcatAssociative(e0, configEffects, pebbleEffects);
    }

    /** The certificate, config and Pebble steps of `_configure_amf`, for the provider's certificate. */
    method InstallCertificateAndConfig(env: Env, certificate: string, ghost c0: Container, ghost done: seq<Effect>)
      returns (stop: ReconcileStop, ghost done': seq<Effect>)
      requires env.nrfUrl.Some? && env.webuiUrl.Some? && env.podIp.Some?
      requires container == ApplyAll(c0, done)
      modifies this
      ensures var r := InstallEffects(old(container), env, certificate, render);
              && stop == r.stop
              && done' == done + r.effects
              && effects == old(effects) + r.effects
      ensures container == ApplyAll(c0, done')
    {
      PathsDistinct();
      ghost var start := container;
      var certificateUpdated;
      certificateUpdated, done' := StoreCertificate(certificate, c0, done);
      ghost var certificateEffects := CertificateEffects(start, certificate);
      ghost var e1 := effects;
      var desired := DesiredConfig(env, render);
      if desired.None? {
        return ConfigRenderRaised, done';
      }
      var content := desired.value;
      InstallEffectsRendered(start, env, certificate, render, content);
      assert ConfigEffects(container, content) == ConfigEffects(start, content);
      ghost var restart := certificateUpdated || IsConfigUpdateRequired(start, content);
      ghost var pushed := ConfigEffects(start, content) + PebbleEffects(start.plan, AmfLayerServices(env.podIp.value), restart);
      ghost var done1 := done';
      done' := PushConfigAndConfigurePebble(content, env.podIp.value, certificateUpdated, c0, done');
      assert done' == done1 + pushed && effects == e1 + pushed;
      ConcatAssociative(done, certificateEffects, pushed);
      ConcatAssociative(old(effects), certificateEffects, pushed);
      stop := Configured;
    }

    /**
     * The steps of `_configure_amf` once its preconditions hold: store the key and CSR if
     * absent, then install the certificate that answers the stored CSR and the rendered
     * config where they differ, and configure Pebble.
     */
    method ConfigureWorkload(env: Env, freshKey: string) returns (stop: ReconcileStop)
      requires env.nrfUrl.Some? && env.webuiUrl.Some? && env.podIp.Some?
      modifies this
      ensures var r := ConfigureEffects(old(container), env, freshKey, generateCsr, render);
              && stop == r.stop
              && effects == old(effects) + r.effects
              && container == ApplyAll(old(container), r.effects)
    {
      ghost var c0 := container;
      ghost var e0 := effects;
      ghost var prefix := KeyEffects(c0, freshKey) + CsrEffects(c0, freshKey, generateCsr);
      ghost var done := StoreKeyAndCsr(freshKey, c0, []);
      assert done == prefix && effects == e0 + prefix;
      var providerCertificate := FindProviderCertificate(env.assignedCertificates, container.files[CsrPath]);
      if !Truthy(providerCertificate) {
        return NoProviderCertificate;
      }
      InstallEffectsIgnoresKeyAndCsr(c0, StoredOr(c0, PrivateKeyPath, freshKey), StoredCsr(c0, freshKey, generateCsr),
                                     env, providerCertificate.value, render);
      ghost var install := InstallEffects(c0, env, providerCertificate.value, render);
      ghost var e1 := effects;
      stop, done := InstallCertificateAndConfig(env, providerCertificate.value, c0, done);
      assert effects == e1 + install.effects;
      ConcatAssociative(e0, prefix, install.effects);
    }

    /**
     * `_configure_amf`: make sure the external Service exists, then, once ready, store the
     * key and CSR if absent, install the provider's certificate and the rendered config when
     * they differ, (re)start the workload, and hand the N2 record to the provider.
     */
    method ConfigureAmf(env: Env, freshKey: string) returns (stop: ReconcileStop, n2: Option<N2Request>)
      modifies this, k8s.cluster
      ensures k8s.cluster.services ==
                if old(k8s.IsCreated()) then old(k8s.cluster.services)
                else old(k8s.cluster.services)[k8s.Key() := K8s.AppliedService(
                       old(k8s.Fetch()), k8s.namespace, k8s.serviceName, k8s.servicePort, k8s.appName)]
      ensures k8s.IsCreated()
      ensures var r := Reconcile(old(container), env, freshKey, generateCsr, render);
              && stop == r.stop
              && effects == old(effects) + r.effects
              && container == ApplyAll(old(container), r.effects)
      ensures n2 == if stop == Configured then SetN2Information(env) else None
    {
      if !k8s.IsCreated() {
        k8s.Create();
      }
      if !ReadyToConfigure(env, container) {
        return NotReady, None;
      }
      stop := ConfigureWorkload(env, freshKey);
      if stop == Configured {
        n2 := SetN2Information(env);
      } else {
        n2 := None;
      }
    }

    /** The leadership, container and config checks of `_on_collect_unit_status`. */
    method LeadershipAndConfigStatus(env: Env) returns (status: Option<Status>)
      ensures var k := FirstFailingIndex(StatusChecks, env, container);
              && (status.Some? <==> k < ChecksBeforeWorkloadVersion)
              && (status.Some? ==> status.value == FinalStatus(k, env))
      ensures status.None? ==> PassesFirst(ChecksBeforeWorkloadVersion, env, container)
    {
      if !env.isLeader {
        FirstFailingIs(0, env, container);
        return Some(Blocked("Scaling is not implemented for this charm"));
      }
      PassesOneMore(0, env, container);
      if !container.canConnect {
        FirstFailingIs(1, env, container);
        return Some(Maintenance("Waiting for service to start"));
      }
      PassesOneMore(1, env, container);
      var invalidConfigs := InvalidConfigs(env);
      if invalidConfigs != [] {
        FirstFailingIs(2, env, container);
        return Some(Blocked("The following configurations are not valid: " + PyStr.ListRepr(invalidConfigs)));
      }
      PassesOneMore(2, env, container);
      status := None;
    }

    /** The relation and database checks of `_on_collect_unit_status`, once the config is valid. */
    method RelationStatus(env: Env) returns (status: Option<Status>)
      requires PassesFirst(ChecksBeforeWorkloadVersion, env, container)
      ensures var k := FirstFailingIndex(StatusChecks, env, container);
              && (status.Some? <==> k < 6)
              && (status.Some? ==> status.value == FinalStatus(k, env))
      ensures status.None? ==> PassesFirst(6, env, container)
    {
      var missingRelations := MissingRelations(env);
      if missingRelations != [] {
        FirstFailingIs(3, env, container);
        return Some(Blocked("Waiting for " + PyStr.Join(missingRelations, ", ") + " relation(s)"));
      }
      PassesOneMore(3, env, container);
      if !env.databaseCreated {
        FirstFailingIs(4, env, container);
        return Some(Waiting("Waiting for the amf database to be available"));
      }
      PassesOneMore(4, env, container);
      if |env.databaseInfo| == 0 {
        FirstFailingIs(5, env, container);
        return Some(Waiting("Waiting for AMF database info to be available"));
      }
      PassesOneMore(5, env, container);
      status := None;
    }

    /** The NRF and webui checks of `_on_collect_unit_status`. */
    method ServiceUrlStatus(env: Env) returns (status: Option<Status>)
      requires PassesFirst(6, env, container)
      ensures var k := FirstFailingIndex(StatusChecks, env, container);
              && (status.Some? <==> k < 8)
              && (status.Some? ==> status.value == FinalStatus(k, env))
      ensures status.None? ==> PassesFirst(8, env, container)
    {
      if !Truthy(env.nrfUrl) {
        FirstFailingIs(6, env, container);
        return Some(Waiting("Waiting for NRF data to be available"));
      }
      PassesOneMore(6, env, container);
      if !Truthy(env.webuiUrl) {
        FirstFailingIs(7, env, container);
        return Some(Waiting("Waiting for Webui data to be available"));
      }
      PassesOneMore(7, env, container);
      status := None;
    }

    /** The storage and pod IP checks of `_on_collect_unit_status`. */
    method StorageAndPodIpStatus(env: Env) returns (status: Option<Status>)
      requires PassesFirst(8, env, container)
      ensures var k := FirstFailingIndex(StatusChecks, env, container);
              && (status.Some? <==> k < ChecksBeforeN2)
              && (status.Some? ==> status.value == FinalStatus(k, env))
      ensures status.None? ==> PassesFirst(ChecksBeforeN2, env, container)
    {
      if ConfigDirPath !in container.dirs {
        FirstFailingIs(8, env, container);
        return Some(Waiting("Waiting for storage to be attached"));
      }
      PassesOneMore(8, env, container);
      if !Truthy(env.podIp) {
        FirstFailingIs(9, env, container);
        return Some(Waiting("Waiting for pod IP address to be available"));
      }
      PassesOneMore(9, env, container);
      status := None;
    }

    /**
     * The checks of `_on_collect_unit_status` up to the pod IP: the status of the first that
     * fails, if one does, and the workload version once the config check has passed.
     */
    method PreconditionStatus(env: Env) returns (status: Option<Status>, workloadVersion: Option<string>)
      ensures var k := FirstFailingIndex(StatusChecks, env, container);
              && (status.Some? <==> k < ChecksBeforeN2)
              && (status.Some? ==> status.value == FinalStatus(k, env))
              && workloadVersion == (if k >= ChecksBeforeWorkloadVersion then WorkloadVersion(container) else None)
      ensures status.None? ==> PassesFirst(ChecksBeforeN2, env, container)
    {
      status := LeadershipAndConfigStatus(env);
      if status.Some? {
        return status, None;
      }
      workloadVersion := WorkloadVersion(container);
      status := RelationStatus(env);
      if status.Some? {
        return;
      }
      status := ServiceUrlStatus(env);
      if status.Some? {
        return;
      }
      status := StorageAndPodIpStatus(env);
    }

    /** The certificate and service checks of `_on_collect_unit_status`, once the pod IP is known. */
    method WorkloadStatus(env: Env) returns (status: Status)
      requires PassesFirst(ChecksBeforeN2, env, container)
      ensures status == FinalStatus(FirstFailingIndex(StatusChecks, env, container), env)
    {
      if CsrPath in container.files {
        var certificate := FindProviderCertificate(env.assignedCertificates, container.files[CsrPath]);
        if !Truthy(certificate) {
          FirstFailingIs(10, env, container);
          return Waiting("Waiting for certificates to be stored");
        }
      }
      PassesOneMore(10, env, container);
      if !AmfServiceIsRunning(container) {
        FirstFailingIs(11, env, container);
        return Waiting("Waiting for AMF service to start");
      }
      PassesOneMore(11, env, container);
      FirstFailingIs(12, env, container);
      status := Active("");
    }

    /**
     * `_on_collect_unit_status`: the statuses added, the workload version set, and the N2
     * record handed to the provider. The first failing check decides the last status; when
     * every check up to the pod IP passes, a refused N2 record adds the MetalLB status first.
     */
    method OnCollectUnitStatus(env: Env) returns (added: seq<Status>, workloadVersion: Option<string>, n2: Option<N2Request>)
      ensures var k := FirstFailingIndex(StatusChecks, env, container);
              && n2 == (if k >= ChecksBeforeN2 then SetN2Information(env) else None)
              && workloadVersion == (if k >= ChecksBeforeWorkloadVersion then WorkloadVersion(container) else None)
              && added == (if n2.Some? && !providerAccepts(n2.value) then [MetalLbStatus] else [])
                          + [FinalStatus(k, env)]
    {
      var failing;
      failing, workloadVersion := PreconditionStatus(env);
      if failing.Some? {
        return [failing.value], workloadVersion, None;
      }
      n2 := SetN2Information(env);
      added := [];
      if n2.Some? && !providerAccepts(n2.value) {
        added := added + [MetalLbStatus];
      }
      var last := WorkloadStatus(env);
      added := added + [last];
    }

    /** `_delete_private_key`, `_delete_csr`, `_delete_certificate`: remove the file when it is stored. */
    method DeleteIfPresent(path: string, ghost c0: Container, ghost done: seq<Effect>) returns (ghost done': seq<Effect>)
      requires container == ApplyAll(c0, done)
      modifies this
      ensures done' == done + RemoveIfPresent(old(container), path)
      ensures effects == old(effects) + RemoveIfPresent(old(container), path)
      ensures container == ApplyAll(c0, done')
      ensures container == old(container).(files := old(container).files - {path})
    {
      done' := done;
      if path !in container.files {
        assert container.files - {path} == container.files;
        return;
      }
      Emit(RemovePath(path), c0, done');
      done' := done' + [RemovePath(path)];
    }

    /** `_on_certificates_relation_broken`: defer until the container answers, then delete the TLS files that exist. */
    method OnCertificatesRelationBroken() returns (outcome: HandlerOutcome)
      modifies this
      ensures outcome == if old(container).canConnect then Completed else Deferred
      ensures var es := if old(container).canConnect then TeardownEffects(old(container)) else [];
              effects == old(effects) + es && container == ApplyAll(old(container), es)
    {
      if !container.canConnect {
        return Deferred;
      }
      PathsDistinct();
      ghost var c0, e0 := container, effects;
      ghost var key, csr, cert := RemoveIfPresent(c0, PrivateKeyPath), RemoveIfPresent(c0, CsrPath), RemoveIfPresent(c0, CertificatePath);
      ghost var done := DeleteIfPresent(PrivateKeyPath, c0, []);
      RemoveIfPresentOther(c0, PrivateKeyPath, CsrPath);
      ghost var c1 := container;
      done := DeleteIfPresent(CsrPath, c0, done);
      RemoveIfPresentOther(c1, CsrPath, CertificatePath);
      RemoveIfPresentOther(c0, PrivateKeyPath, CertificatePath);
      done := DeleteIfPresent(CertificatePath, c0, done);
      assert TeardownEffects(c0) == key + csr + cert;
      assert done == key + csr + cert;
      ConcatAssociative(e0, key, csr);
      ConcatAssociative(e0, key + csr, cert);
      return Completed;
    }

    /**
     * `_on_certificate_expiring`: defer until the container answers; ignore a certificate
     * other than the stored one; otherwise request a new certificate from a fresh CSR.
     * Pulling a file that does not exist raises.
     */
    method OnCertificateExpiring(certificate: string) returns (outcome: HandlerOutcome)
      modifies this
      ensures !old(container).canConnect ==> outcome == Deferred
      ensures old(container).canConnect && CertificatePath !in old(container).files ==> outcome == Raised
      ensures (old(container).canConnect && CertificatePath in old(container).files
               && old(container).files[CertificatePath] != certificate)
              ==> outcome == Completed
      ensures (old(container).canConnect && CertificatePath in old(container).files
               && old(container).files[CertificatePath] == certificate)
              ==> outcome == (if PrivateKeyPath in old(container).files then Completed else Raised)
      ensures var renews := outcome == Completed && CertificatePath in old(container).files
                            && old(container).files[CertificatePath] == certificate;
              var es := if renews then CsrRequestEffects(old(container).files[PrivateKeyPath], generateCsr) else [];
              effects == old(effects) + es && container == ApplyAll(old(container), es)
    {
      if !container.canConnect {
        return Deferred;
      }
      if CertificatePath !in container.files {
        return Raised;
      }
      if certificate != container.files[CertificatePath] {
        return Completed;
      }
      if PrivateKeyPath !in container.files {
        return Raised;
      }
      ghost var done := RequestNewCertificate(container, []);
      return Completed;
    }

    /** `_on_remove`: delete the external Service when it exists; afterwards it does not. */
    method OnRemove()
      modifies k8s.cluster
      ensures k8s.cluster.services == old(k8s.cluster.services) - {k8s.Key()}
      ensures !k8s.IsCreated()
    {
      if k8s.IsCreated() {
        var removed := k8s.Remove();
      }
    }
  }
}

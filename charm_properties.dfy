/**
 * Properties of the charm's decisions: the status chain and `ready_to_configure`, the
 * priority rule applied to the MetalLB status, what one run of `_configure_amf` writes and
 * when, that a second run with the same inputs writes and restarts nothing, and that the
 * certificate teardown is a no-op when repeated.
 */
module CharmProperties {
  import opened Wrappers
  import PyStr
  import opened UnitStatus
  import opened CharmModel

  // ---------------------------------------------------------------- status chain

  /**
   * `ready_to_configure` repeats the status chain from container reachability through the
   * pod IP: it holds exactly when each of those status checks passes.
   */
  lemma ReadyIffStatusChecksPass(env: Env, c: Container)
    ensures ReadyToConfigure(env, c) <==>
              forall i :: 1 <= i < ChecksBeforeN2 ==> Passes(StatusChecks[i], env, c)
  {
    ReadyToConfigureIffChecksPass(env, c);
    assert forall i :: 0 <= i < |ReadinessChecks| ==> ReadinessChecks[i] == StatusChecks[i + 1];
    if ReadyToConfigure(env, c) {
      forall i | 1 <= i < ChecksBeforeN2
        ensures Passes(StatusChecks[i], env, c)
      {
        assert Passes(ReadinessChecks[i - 1], env, c);
      }
    } else {
      var j :| 0 <= j < |ReadinessChecks| && !Passes(ReadinessChecks[j], env, c);
      assert !Passes(StatusChecks[j + 1], env, c);
    }
  }

  /** For the leader, the status chain gets past the pod IP exactly when the charm is ready to configure. */
  lemma LeaderReadyIffPastPodIp(env: Env, c: Container)
    requires env.isLeader
    ensures ReadyToConfigure(env, c) <==> FirstFailingIndex(StatusChecks, env, c) >= ChecksBeforeN2
  {
    ReadyIffStatusChecksPass(env, c);
    var k := FirstFailingIndex(StatusChecks, env, c);
    if k < ChecksBeforeN2 {
      assert k != 0 by {
        assert Passes(StatusChecks[0], env, c);
      }
      assert !Passes(StatusChecks[k], env, c);
    }
  }

  /** Checks after the first failing one are not consulted: they cannot change the status. */
  lemma {:induction false} FirstFailingIgnoresLater(checks: seq<Check>, env: Env, c: Container, env': Env, c': Container)
    requires var k := FirstFailingIndex(checks, env, c);
             forall j :: 0 <= j < |checks| && j <= k ==> (Passes(checks[j], env, c) <==> Passes(checks[j], env', c'))
    ensures FirstFailingIndex(checks, env', c') == FirstFailingIndex(checks, env, c)
    decreases |checks|
  {
    if checks != [] && Passes(checks[0], env, c) {
      var k := FirstFailingIndex(checks, env, c);
      forall j | 0 <= j < |checks[1..]| && j <= k - 1
        ensures Passes(checks[1..][j], env, c) <==> Passes(checks[1..][j], env', c')
      {
        assert checks[1..][j] == checks[j + 1];
      }
      FirstFailingIgnoresLater(checks[1..], env, c, env', c');
    }
  }

  /** A non-leader is told scaling is not implemented, whatever else holds. */
  lemma NonLeaderBlocked(env: Env, c: Container)
    requires !env.isLeader
    ensures FinalStatus(FirstFailingIndex(StatusChecks, env, c), env) == Blocked("Scaling is not implemented for this charm")
  {
    FirstFailingIs(0, env, c);
  }

  /** When every check passes the unit is active. */
  lemma AllChecksPassActive(env: Env, c: Container)
    requires forall j :: 0 <= j < |StatusChecks| ==> Passes(StatusChecks[j], env, c)
    ensures FinalStatus(FirstFailingIndex(StatusChecks, env, c), env) == Active("")
  {
    FirstFailingIs(|StatusChecks|, env, c);
  }

  /**
   * When the N2 publication is refused, the MetalLB status is added before the status of the
   * later checks; ops reports the MetalLB status, since those later statuses are waiting or
   * active.
   */
  lemma MetalLbReported(k: nat, env: Env)
    requires k >= ChecksBeforeN2
    ensures Reported([MetalLbStatus, FinalStatus(k, env)]) == MetalLbStatus
  {
    assert Priority(FinalStatus(k, env)) < Priority(MetalLbStatus);
  }

  /** With only fiveg_nrf absent, it alone is missing. */
  lemma OnlyNrfMissing(relations: set<string>)
    requires relations == {DatabaseRelationName, TlsRelationName, SdcoreConfigRelationName}
    ensures MissingFrom(RequiredRelations, relations) == [FivegNrfRelationName]
  {
    MissingRelationsInOrder(relations);
  }

  /** With only fiveg_nrf absent the unit waits for that relation alone. */
  lemma OnlyNrfMissingStatus(env: Env)
    requires env.relations == {DatabaseRelationName, TlsRelationName, SdcoreConfigRelationName}
    ensures FailureStatus(RelationsPresent, env) == Blocked("Waiting for fiveg_nrf relation(s)")
  {
    OnlyNrfMissing(env.relations);
    assert PyStr.Join([FivegNrfRelationName], ", ") == FivegNrfRelationName;
    var message := "Waiting for " + FivegNrfRelationName + " relation(s)";
    assert FailureStatus(RelationsPresent, env) == Blocked(message);
    assert message == "Waiting for fiveg_nrf relation(s)";
  }

  /** No relation is missing exactly when all four required relations exist. */
  lemma NoMissingRelationsIff(env: Env)
    ensures MissingFrom(RequiredRelations, env.relations) == [] <==>
              forall r :: r in RequiredRelations ==> r in env.relations
  {
    var missing := MissingFrom(RequiredRelations, env.relations);
    if missing != [] {
      assert missing[0] in missing;
    }
  }

  /** "dnn" is reported invalid exactly when the config has no non-empty DNN. */
  lemma DnnInvalidIff(env: Env)
    ensures InvalidConfigsOf(env.config) == [DnnConfigKey] <==> !(DnnConfigKey in env.config && env.config[DnnConfigKey] != "")
    ensures InvalidConfigsOf(env.config) == [] <==> DnnConfigKey in env.config && env.config[DnnConfigKey] != ""
  {
  }

  // ---------------------------------------------------------------- what one reconciliation does

  /** A two-effect sequence applies its effects in order. */
  lemma ApplyPair(c: Container, a: Effect, b: Effect)
    ensures ApplyAll(c, [a, b]) == ApplyEffect(ApplyEffect(c, a), b)
  {
    ApplyAllSnoc(c, [], a);
    ApplyAllSnoc(c, [a], b);
    assert [] + [a] == [a] && [a] + [b] == [a, b];
  }

  /** The key step leaves the stored key, or the fresh one where none was stored, and nothing else changed. */
  lemma ApplyKey(c: Container, freshKey: string)
    ensures ApplyAll(c, KeyEffects(c, freshKey))
            == c.(files := c.files[PrivateKeyPath := StoredOr(c, PrivateKeyPath, freshKey)])
  {
    if PrivateKeyPath in c.files {
      assert c.files[PrivateKeyPath := c.files[PrivateKeyPath]] == c.files;
    } else {
      ApplyAllSnoc(c, [], Push(PrivateKeyPath, freshKey));
      assert [] + [Push(PrivateKeyPath, freshKey)] == KeyEffects(c, freshKey);
    }
  }

  /** Requesting a certificate stores the stripped CSR and changes nothing else. */
  lemma ApplyCsrRequest(c: Container, privateKey: string, generateCsr: string -> string)
    ensures ApplyAll(c, CsrRequestEffects(privateKey, generateCsr))
            == c.(files := c.files[CsrPath := StrippedCsr(privateKey, generateCsr)])
  {
    ApplyPair(c, Push(CsrPath, StrippedCsr(privateKey, generateCsr)), RequestCertificate(generateCsr(privateKey)));
  }

  /** The key and CSR steps leave the stored (or fresh) key and the stored (or new) CSR, and nothing else changed. */
  lemma ApplyKeyAndCsr(c: Container, freshKey: string, generateCsr: string -> string)
    ensures ApplyAll(c, KeyEffects(c, freshKey) + CsrEffects(c, freshKey, generateCsr))
            == c.(files := c.files[PrivateKeyPath := StoredOr(c, PrivateKeyPath, freshKey)]
                                  [CsrPath := StoredCsr(c, freshKey, generateCsr)])
  {
    var key := KeyEffects(c, freshKey);
    var csr := CsrEffects(c, freshKey, generateCsr);
    ApplyKey(c, freshKey);
    ApplyAllConcat(c, key, csr);
    var d := ApplyAll(c, key);
    if CsrPath in c.files {
      PathsDistinct();
      assert d.files[CsrPath := c.files[CsrPath]] == d.files;
    } else {
      ApplyCsrRequest(d, StoredOr(c, PrivateKeyPath, freshKey), generateCsr);
    }
  }

  /** After the certificate step the provider's (non-empty) certificate is stored, and nothing else changed. */
  lemma ApplyCertificate(c: Container, certificate: string)
    requires certificate != ""
    ensures ApplyAll(c, CertificateEffects(c, certificate)) == c.(files := c.files[CertificatePath := certificate])
  {
    if !IsCertificateUpdateRequired(c, certificate) {
      assert c.files[CertificatePath := certificate] == c.files;
    }
  }

  /** After the config step the rendered content is stored, and nothing else changed. */
  lemma ApplyConfig(c: Container, content: string)
    ensures ApplyAll(c, ConfigEffects(c, content)) == c.(files := c.files[ConfigFilePath := content])
  {
    if !IsConfigUpdateRequired(c, content) {
      assert c.files[ConfigFilePath := content] == c.files;
    }
  }

  /**
   * After the Pebble step the plan is the AMF layer and the AMF service runs, restarted or
   * not, when the plan held no service other than the AMF's.
   */
  lemma ApplyPebble(c: Container, podIp: string, restart: bool)
    requires c.plan.Keys <= {AmfServiceName}
    ensures ApplyAll(c, PebbleEffects(c.plan, AmfLayerServices(podIp), restart))
            == c.(plan := AmfLayerServices(podIp), running := c.running + {AmfServiceName})
  {
    var layer := AmfLayerServices(podIp);
    LayerOverrides(c.plan, layer, AmfServiceName);
    ApplyPebbleLayer(c, layer, restart);
  }

  /** A layer that declares every service of the plan replaces the plan when merged into it. */
  lemma LayerOverrides(plan: map<string, PebbleService>, layer: map<string, PebbleService>, name: string)
    requires plan.Keys <= {name} && name in layer
    ensures plan + layer == layer
  {
    assert (plan + layer).Keys == layer.Keys;
  }

  /** `ApplyPebble` for any layer that overrides the plan and enables just the AMF service. */
  lemma ApplyPebbleLayer(c: Container, layer: map<string, PebbleService>, restart: bool)
    requires c.plan + layer == layer && EnabledServices(layer) == {AmfServiceName}
    ensures ApplyAll(c, PebbleEffects(c.plan, layer, restart))
            == c.(plan := layer, running := c.running + {AmfServiceName})
  {
    var last := if restart then Restart(AmfServiceName) else Replan;
    if c.plan != layer {
      var added := c.(plan := layer, running := c.running + {AmfServiceName});
      assert PebbleEffects(c.plan, layer, restart) == [AddLayer(layer), Replan] + [last];
      ApplyPair(c, AddLayer(layer), Replan);
      ApplyAllSnoc(c, [AddLayer(layer), Replan], last);
      assert ApplyEffect(added, last) == added;
    } else {
      assert PebbleEffects(c.plan, layer, restart) == [last];
      ApplyAllSnoc(c, [], last);
    }
  }

  /** The container with the key and CSR stored: those already there, else the fresh key and a CSR generated from the key. */
  function Keyed(c: Container, freshKey: string, generateCsr: string -> string): Container
  {
    c.(files := c.files[PrivateKeyPath := StoredOr(c, PrivateKeyPath, freshKey)][CsrPath := StoredCsr(c, freshKey, generateCsr)])
  }

  /**
   * The container the install steps leave once the key and CSR are stored as in `d`: the
   * certificate stored; with a rendered config, the config stored, the plan the AMF layer
   * and the AMF service running.
   */
  function Installed(d: Container, env: Env, certificate: string, render: ConfigContext -> string): Container
    requires env.nrfUrl.Some? && env.webuiUrl.Some? && env.podIp.Some?
  {
    var certified := d.files[CertificatePath := certificate];
    match DesiredConfig(env, render)
    case None => d.(files := certified)
    case Some(content) =>
      d.(files := certified[ConfigFilePath := content], plan := AmfLayerServices(env.podIp.value),
         running := d.running + {AmfServiceName})
  }

  /** The container `_configure_amf` leaves once its preconditions hold. */
  function ConfiguredState(c: Container, env: Env, freshKey: string, generateCsr: string -> string, render: ConfigContext -> string)
    : Container
    requires env.nrfUrl.Some? && env.webuiUrl.Some? && env.podIp.Some?
  {
    var certificate := FirstCertificateFor(env.assignedCertificates, StoredCsr(c, freshKey, generateCsr));
    if !Truthy(certificate) then Keyed(c, freshKey, generateCsr)
    else Installed(Keyed(c, freshKey, generateCsr), env, certificate.value, render)
  }

  /**
   * The container `_configure_amf` leaves, stated directly: nothing changes unless the
   * charm is ready; then the key and CSR are stored; with a provider certificate for the CSR,
   * the install steps follow.
   */
  function Reconciled(c: Container, env: Env, freshKey: string, generateCsr: string -> string, render: ConfigContext -> string)
    : Container
  {
    if !ReadyToConfigure(env, c) then c else ConfiguredState(c, env, freshKey, generateCsr, render)
  }

  /** The install steps with a rendered config, applied to `d`, which differs from `c` at most in the key and CSR. */
  lemma ApplyInstallRendered(c: Container, d: Container, env: Env, certificate: string, render: ConfigContext -> string,
                             content: string, key: string, csr: string)
    requires env.nrfUrl.Some? && env.webuiUrl.Some? && env.podIp.Some? && DesiredConfig(env, render) == Some(content)
    requires certificate != "" && c.plan.Keys <= {AmfServiceName}
    requires d == c.(files := c.files[PrivateKeyPath := key][CsrPath := csr])
    ensures ApplyAll(d, InstallEffects(c, env, certificate, render).effects) == Installed(d, env, certificate, render)
  {
    PathsDistinct();
    var restart := IsCertificateUpdateRequired(c, certificate) || IsConfigUpdateRequired(c, content);
    var certificateEffects := CertificateEffects(c, certificate);
    var configEffects := ConfigEffects(c, content);
    var pebbleEffects := PebbleEffects(c.plan, AmfLayerServices(env.podIp.value), restart);
    InstallEffectsRendered(c, env, certificate, render, content);
    assert certificateEffects == CertificateEffects(d, certificate);
    ApplyCertificate(d, certificate);
    var d1 := ApplyAll(d, certificateEffects);
    ApplyAllConcat(d, certificateEffects, configEffects + pebbleEffects);
    assert configEffects == ConfigEffects(d1, content);
    ApplyConfig(d1, content);
    ApplyAllConcat(d1, configEffects, pebbleEffects);
    ApplyPebble(ApplyAll(d1, configEffects), env.podIp.value, restart);
  }

  /** The install steps, applied to `d`, which differs from `c` at most in the key and CSR, reach `Installed`. */
  lemma ApplyInstall(c: Container, d: Container, env: Env, certificate: string, render: ConfigContext -> string,
                     key: string, csr: string)
    requires env.nrfUrl.Some? && env.webuiUrl.Some? && env.podIp.Some?
    requires certificate != "" && c.plan.Keys <= {AmfServiceName}
    requires d == c.(files := c.files[PrivateKeyPath := key][CsrPath := csr])
    ensures ApplyAll(d, InstallEffects(c, env, certificate, render).effects) == Installed(d, env, certificate, render)
  {
    match DesiredConfig(env, render)
    case None =>
      PathsDistinct();
      assert CertificateEffects(c, certificate) == CertificateEffects(d, certificate);
      ApplyCertificate(d, certificate);
    case Some(content) =>
      ApplyInstallRendered(c, d, env, certificate, render, content, key, csr);
  }

  /** The key and CSR steps reach `Keyed`. */
  lemma ConfigurePrefixOutcome(c: Container, env: Env, freshKey: string, generateCsr: string -> string, render: ConfigContext -> string)
    requires env.nrfUrl.Some? && env.webuiUrl.Some? && env.podIp.Some?
    ensures var prefix := KeyEffects(c, freshKey) + CsrEffects(c, freshKey, generateCsr);
            && prefix <= ConfigureEffects(c, env, freshKey, generateCsr, render).effects
            && ApplyAll(c, prefix) == Keyed(c, freshKey, generateCsr)
  {
    ApplyKeyAndCsr(c, freshKey, generateCsr);
  }

  /** The effects of `_configure_amf` past its preconditions reach `ConfiguredState`. */
  lemma ConfigureOutcome(c: Container, env: Env, freshKey: string, generateCsr: string -> string, render: ConfigContext -> string)
    requires env.nrfUrl.Some? && env.webuiUrl.Some? && env.podIp.Some? && c.plan.Keys <= {AmfServiceName}
    ensures ApplyAll(c, ConfigureEffects(c, env, freshKey, generateCsr, render).effects)
            == ConfiguredState(c, env, freshKey, generateCsr, render)
  {
    ConfigurePrefixOutcome(c, env, freshKey, generateCsr, render);
    var certificate := FirstCertificateFor(env.assignedCertificates, StoredCsr(c, freshKey, generateCsr));
    if Truthy(certificate) {
      var prefix := KeyEffects(c, freshKey) + CsrEffects(c, freshKey, generateCsr);
      var install := InstallEffects(c, env, certificate.value, render);
      ApplyAllConcat(c, prefix, install.effects);
      ApplyInstall(c, Keyed(c, freshKey, generateCsr), env, certificate.value, render,
                   StoredOr(c, PrivateKeyPath, freshKey), StoredCsr(c, freshKey, generateCsr));
    }
  }

  /**
   * The effects of one `_configure_amf` run take the container to `Reconciled`, when the
   * Pebble plan holds no service besides the AMF's.
   */
  lemma ReconcileOutcome(c: Container, env: Env, freshKey: string, generateCsr: string -> string, render: ConfigContext -> string)
    requires c.plan.Keys <= {AmfServiceName}
    ensures ApplyAll(c, Reconcile(c, env, freshKey, generateCsr, render).effects)
            == Reconciled(c, env, freshKey, generateCsr, render)
  {
    if ReadyToConfigure(env, c) {
      ConfigureOutcome(c, env, freshKey, generateCsr, render);
    }
  }

  // ---------------------------------------------------------------- which files a run writes

  /** The paths a sequence of effects pushes content to. */
  function Written(es: seq<Effect>): set<string>
    decreases |es|
  {
    if es == [] then {}
    else Written(es[..|es| - 1]) + (if es[|es| - 1].Push? then {es[|es| - 1].path} else {})
  }

  lemma {:induction false} WrittenConcat(a: seq<Effect>, b: seq<Effect>)
    ensures Written(a + b) == Written(a) + Written(b)
    decreases |b|
  {
    if b == [] {
      assert a + b == a;
    } else {
      assert (a + b)[..|a + b| - 1] == a + b[..|b| - 1];
      WrittenConcat(a, b[..|b| - 1]);
    }
  }

  lemma WrittenSingle(e: Effect)
    ensures Written([e]) == if e.Push? then {e.path} else {}
  {
    assert [e][..0] == [];
  }

  lemma WrittenPair(a: Effect, b: Effect)
    ensures Written([a, b]) == Written([a]) + Written([b])
  {
    assert [a] + [b] == [a, b];
    WrittenConcat([a], [b]);
  }

  /** The Pebble step writes no file and touches the plan and services only. */
  lemma PebbleWritesNothing(plan: map<string, PebbleService>, layer: map<string, PebbleService>, restart: bool)
    ensures Written(PebbleEffects(plan, layer, restart)) == {}
  {
    var last := if restart then Restart(AmfServiceName) else Replan;
    WrittenSingle(last);
    if plan != layer {
      WrittenSingle(AddLayer(layer));
      WrittenSingle(Replan);
      WrittenPair(AddLayer(layer), Replan);
      WrittenConcat([AddLayer(layer), Replan], [last]);
    } else {
      assert PebbleEffects(plan, layer, restart) == [last];
    }
  }

  /** The key and CSR steps write the key where it is absent and the CSR where it is absent. */
  lemma PrefixWrites(c: Container, freshKey: string, generateCsr: string -> string)
    ensures Written(KeyEffects(c, freshKey) + CsrEffects(c, freshKey, generateCsr))
            == (if PrivateKeyPath in c.files then {} else {PrivateKeyPath})
               + (if CsrPath in c.files then {} else {CsrPath})
  {
    WrittenConcat(KeyEffects(c, freshKey), CsrEffects(c, freshKey, generateCsr));
    WrittenSingle(Push(PrivateKeyPath, freshKey));
    var privateKey := StoredOr(c, PrivateKeyPath, freshKey);
    var push := Push(CsrPath, StrippedCsr(privateKey, generateCsr));
    var request := RequestCertificate(generateCsr(privateKey));
    WrittenSingle(push);
    WrittenSingle(request);
    WrittenPair(push, request);
  }

  /** The files the install steps write: the certificate when it differs; once rendered, the config when it differs. */
  function InstallWritten(c: Container, env: Env, certificate: string, render: ConfigContext -> string): set<string>
    requires env.nrfUrl.Some? && env.webuiUrl.Some? && env.podIp.Some?
  {
    (if IsCertificateUpdateRequired(c, certificate) then {CertificatePath} else {})
    + (match DesiredConfig(env, render)
       case None => {}
       case Some(content) => if IsConfigUpdateRequired(c, content) then {ConfigFilePath} else {})
  }

  /** The install steps write at most the certificate and the config. */
  lemma InstallWrittenBound(c: Container, env: Env, certificate: string, render: ConfigContext -> string)
    requires env.nrfUrl.Some? && env.webuiUrl.Some? && env.podIp.Some?
    ensures InstallWritten(c, env, certificate, render) <= {CertificatePath, ConfigFilePath}
  {
  }

  lemma InstallWrites(c: Container, env: Env, certificate: string, render: ConfigContext -> string)
    requires env.nrfUrl.Some? && env.webuiUrl.Some? && env.podIp.Some?
    ensures Written(InstallEffects(c, env, certificate, render).effects) == InstallWritten(c, env, certificate, render)
  {
    WrittenSingle(Push(CertificatePath, certificate));
    match DesiredConfig(env, render)
    case None =>
    case Some(content) =>
      var restart := IsCertificateUpdateRequired(c, certificate) || IsConfigUpdateRequired(c, content);
      var pebbleEffects := PebbleEffects(c.plan, AmfLayerServices(env.podIp.value), restart);
      InstallEffectsRendered(c, env, certificate, render, content);
      WrittenSingle(Push(ConfigFilePath, content));
      PebbleWritesNothing(c.plan, AmfLayerServices(env.podIp.value), restart);
      WrittenConcat(ConfigEffects(c, content), pebbleEffects);
      WrittenConcat(CertificateEffects(c, certificate), ConfigEffects(c, content) + pebbleEffects);
  }

  /** The files `_configure_amf` writes past its preconditions. */
  lemma ConfigureWrites(c: Container, env: Env, freshKey: string, generateCsr: string -> string, render: ConfigContext -> string)
    requires env.nrfUrl.Some? && env.webuiUrl.Some? && env.podIp.Some?
    ensures var certificate := FirstCertificateFor(env.assignedCertificates, StoredCsr(c, freshKey, generateCsr));
            Written(ConfigureEffects(c, env, freshKey, generateCsr, render).effects)
            == (if PrivateKeyPath in c.files then {} else {PrivateKeyPath})
               + (if CsrPath in c.files then {} else {CsrPath})
               + (if Truthy(certificate) then InstallWritten(c, env, certificate.value, render) else {})
  {
    var prefix := KeyEffects(c, freshKey) + CsrEffects(c, freshKey, generateCsr);
    PrefixWrites(c, freshKey, generateCsr);
    var certificate := FirstCertificateFor(env.assignedCertificates, StoredCsr(c, freshKey, generateCsr));
    if Truthy(certificate) {
      var install := InstallEffects(c, env, certificate.value, render);
      InstallWrites(c, env, certificate.value, render);
      WrittenConcat(prefix, install.effects);
    }
  }

  /** A set made of two optional paths and a subset of two others, over four distinct paths. */
  lemma WrittenSetShape(hasFirst: bool, hasSecond: bool, rest: set<string>, p1: string, p2: string, p3: string, p4: string)
    requires p1 != p2 && p1 != p3 && p1 != p4 && p2 != p3 && p2 != p4
    requires rest <= {p3, p4}
    ensures var s := (if hasFirst then {} else {p1}) + (if hasSecond then {} else {p2}) + rest;
            && s <= {p1, p2, p3, p4}
            && (p1 in s <==> !hasFirst)
            && (p2 in s <==> !hasSecond)
  {
  }

  /** `ConfigureWrites` for the key and the CSR: each is written exactly when absent, and only the four files are. */
  lemma ConfigureWritesKeyAndCsr(c: Container, env: Env, freshKey: string, generateCsr: string -> string, render: ConfigContext -> string)
    requires env.nrfUrl.Some? && env.webuiUrl.Some? && env.podIp.Some?
    ensures var r := ConfigureEffects(c, env, freshKey, generateCsr, render);
            && Written(r.effects) <= {PrivateKeyPath, CsrPath, CertificatePath, ConfigFilePath}
            && (PrivateKeyPath in Written(r.effects) <==> PrivateKeyPath !in c.files)
            && (CsrPath in Written(r.effects) <==> CsrPath !in c.files)
  {
    PathsDistinct();
    ConfigureWrites(c, env, freshKey, generateCsr, render);
    var certificate := FirstCertificateFor(env.assignedCertificates, StoredCsr(c, freshKey, generateCsr));
    var installed := if Truthy(certificate) then InstallWritten(c, env, certificate.value, render) else {};
    if Truthy(certificate) {
      InstallWrittenBound(c, env, certificate.value, render);
    }
    WrittenSetShape(PrivateKeyPath in c.files, CsrPath in c.files, installed,
                    PrivateKeyPath, CsrPath, CertificatePath, ConfigFilePath);
  }

  /** `ConfigureWrites` for the certificate and the config. */
  lemma ConfigureWritesCertificateAndConfig(c: Container, env: Env, freshKey: string, generateCsr: string -> string,
                                            render: ConfigContext -> string)
    requires env.nrfUrl.Some? && env.webuiUrl.Some? && env.podIp.Some?
    ensures var r := ConfigureEffects(c, env, freshKey, generateCsr, render);
            var certificate := FirstCertificateFor(env.assignedCertificates, StoredCsr(c, freshKey, generateCsr));
            && (CertificatePath in Written(r.effects) <==> Truthy(certificate) && ExistingCertificate(c) != certificate.value)
            && (ConfigFilePath in Written(r.effects) <==>
                  Truthy(certificate) && DesiredConfig(env, render).Some? && IsConfigUpdateRequired(c, DesiredConfig(env, render).value))
  {
    PathsDistinct();
    ConfigureWrites(c, env, freshKey, generateCsr, render);
  }

  /**
   * What one `_configure_amf` run writes: nothing unless ready; the key and the CSR only
   * where absent; the certificate only when one answers the stored CSR and it differs from
   * the stored one (an absent file counting as ""); the config only once rendered and when
   * the file is absent or differs.
   */
  lemma ReconcileWrites(c: Container, env: Env, freshKey: string, generateCsr: string -> string, render: ConfigContext -> string)
    ensures var r := Reconcile(c, env, freshKey, generateCsr, render);
            var certificate := FirstCertificateFor(env.assignedCertificates, StoredCsr(c, freshKey, generateCsr));
            && (!ReadyToConfigure(env, c) ==> r.effects == [])
            && Written(r.effects) <= {PrivateKeyPath, CsrPath, CertificatePath, ConfigFilePath}
            && (PrivateKeyPath in Written(r.effects) <==> ReadyToConfigure(env, c) && PrivateKeyPath !in c.files)
            && (CsrPath in Written(r.effects) <==> ReadyToConfigure(env, c) && CsrPath !in c.files)
            && (CertificatePath in Written(r.effects) <==>
                  ReadyToConfigure(env, c) && Truthy(certificate) && ExistingCertificate(c) != certificate.value)
            && (ConfigFilePath in Written(r.effects) <==>
                  ReadyToConfigure(env, c) && Truthy(certificate) && DesiredConfig(env, render).Some?
                  && IsConfigUpdateRequired(c, DesiredConfig(env, render).value))
  {
    if ReadyToConfigure(env, c) {
      ConfigureWritesKeyAndCsr(c, env, freshKey, generateCsr, render);
      ConfigureWritesCertificateAndConfig(c, env, freshKey, generateCsr, render);
    }
  }

  /** The file steps push files and request certificates, nothing else. */
  predicate FileStepsOnly(es: seq<Effect>)
  {
    forall e :: e in es ==> e.Push? || e.RequestCertificate?
  }

  lemma FileSteps(c: Container, freshKey: string, generateCsr: string -> string, certificate: string, content: string)
    ensures FileStepsOnly(KeyEffects(c, freshKey) + CsrEffects(c, freshKey, generateCsr))
    ensures FileStepsOnly(CertificateEffects(c, certificate))
    ensures FileStepsOnly(ConfigEffects(c, content))
  {
  }

  /** A run that does not render the config stops short of the Pebble step and performs file steps only. */
  lemma UnrenderedFileStepsOnly(c: Container, env: Env, freshKey: string, generateCsr: string -> string, render: ConfigContext -> string)
    requires env.nrfUrl.Some? && env.webuiUrl.Some? && env.podIp.Some?
    requires !Truthy(FirstCertificateFor(env.assignedCertificates, StoredCsr(c, freshKey, generateCsr)))
             || DesiredConfig(env, render).None?
    ensures var r := ConfigureEffects(c, env, freshKey, generateCsr, render);
            r.stop != Configured && FileStepsOnly(r.effects)
  {
    var certificate := FirstCertificateFor(env.assignedCertificates, StoredCsr(c, freshKey, generateCsr));
    FileSteps(c, freshKey, generateCsr, if Truthy(certificate) then certificate.value else "", "");
  }

  /** The rendered case of `ConfigureRestartsIffChanged`. */
  lemma RenderedRestartsIffChanged(c: Container, env: Env, freshKey: string, generateCsr: string -> string,
                                   render: ConfigContext -> string, certificate: string, content: string)
    requires env.nrfUrl.Some? && env.webuiUrl.Some? && env.podIp.Some?
    requires FirstCertificateFor(env.assignedCertificates, StoredCsr(c, freshKey, generateCsr)) == Some(certificate)
    requires certificate != "" && DesiredConfig(env, render) == Some(content)
    ensures var r := ConfigureEffects(c, env, freshKey, generateCsr, render);
            var layer := AmfLayerServices(env.podIp.value);
            && r.stop == Configured
            && (Restart(AmfServiceName) in r.effects <==> IsCertificateUpdateRequired(c, certificate) || IsConfigUpdateRequired(c, content))
            && (AddLayer(layer) in r.effects <==> c.plan != layer)
  {
    var layer := AmfLayerServices(env.podIp.value);
    var restart := IsCertificateUpdateRequired(c, certificate) || IsConfigUpdateRequired(c, content);
    var prefix := KeyEffects(c, freshKey) + CsrEffects(c, freshKey, generateCsr);
    var files := CertificateEffects(c, certificate) + ConfigEffects(c, content);
    var pebbleEffects := PebbleEffects(c.plan, layer, restart);
    InstallEffectsRendered(c, env, certificate, render, content);
    FileSteps(c, freshKey, generateCsr, certificate, content);
    assert ConfigureEffects(c, env, freshKey, generateCsr, render).effects == prefix + (files + pebbleEffects);
    assert Restart(AmfServiceName) !in prefix && Restart(AmfServiceName) !in files;
    assert AddLayer(layer) !in prefix && AddLayer(layer) !in files;
  }

  /**
   * Past the preconditions, the workload restarts exactly when the run gets to the Pebble
   * step having written the certificate or the config, and the layer is added exactly when
   * the plan differs from it.
   */
  lemma ConfigureRestartsIffChanged(c: Container, env: Env, freshKey: string, generateCsr: string -> string, render: ConfigContext -> string)
    requires env.nrfUrl.Some? && env.webuiUrl.Some? && env.podIp.Some?
    ensures var r := ConfigureEffects(c, env, freshKey, generateCsr, render);
            var layer := AmfLayerServices(env.podIp.value);
            && (Restart(AmfServiceName) in r.effects <==>
                  r.stop == Configured && (CertificatePath in Written(r.effects) || ConfigFilePath in Written(r.effects)))
            && (AddLayer(layer) in r.effects <==> r.stop == Configured && c.plan != layer)
  {
    var certificate := FirstCertificateFor(env.assignedCertificates, StoredCsr(c, freshKey, generateCsr));
    if Truthy(certificate) && DesiredConfig(env, render).Some? {
      ConfigureWritesCertificateAndConfig(c, env, freshKey, generateCsr, render);
      RenderedRestartsIffChanged(c, env, freshKey, generateCsr, render, certificate.value, DesiredConfig(env, render).value);
    } else {
      UnrenderedFileStepsOnly(c, env, freshKey, generateCsr, render);
    }
  }

  /** `ConfigureRestartsIffChanged` for a whole `_configure_amf` run: nothing restarts or is re-layered unless it is ready. */
  lemma ReconcileRestartsIffChanged(c: Container, env: Env, freshKey: string, generateCsr: string -> string, render: ConfigContext -> string)
    ensures var r := Reconcile(c, env, freshKey, generateCsr, render);
            && (Restart(AmfServiceName) in r.effects <==>
                  r.stop == Configured && (CertificatePath in Written(r.effects) || ConfigFilePath in Written(r.effects)))
            && (r.stop == Configured ==> env.podIp.Some?)
            && (r.stop == Configured ==>
                  (AddLayer(AmfLayerServices(env.podIp.value)) in r.effects <==> c.plan != AmfLayerServices(env.podIp.value)))
  {
    if ReadyToConfigure(env, c) {
      ConfigureRestartsIffChanged(c, env, freshKey, generateCsr, render);
    }
  }

  // ---------------------------------------------------------------- a second run

  /** After a run past the preconditions, the key and the CSR are those the key and CSR steps stored. */
  lemma ConfiguredKeyAndCsr(c: Container, env: Env, freshKey: string, generateCsr: string -> string, render: ConfigContext -> string)
    requires env.nrfUrl.Some? && env.webuiUrl.Some? && env.podIp.Some?
    ensures var c1 := ConfiguredState(c, env, freshKey, generateCsr, render);
            && PrivateKeyPath in c1.files && c1.files[PrivateKeyPath] == StoredOr(c, PrivateKeyPath, freshKey)
            && CsrPath in c1.files && c1.files[CsrPath] == StoredCsr(c, freshKey, generateCsr)
  {
    PathsDistinct();
    var keyed := Keyed(c, freshKey, generateCsr);
    var certificate := FirstCertificateFor(env.assignedCertificates, StoredCsr(c, freshKey, generateCsr));
    if Truthy(certificate) {
      InstalledKeeps(keyed, env, certificate.value, render, PrivateKeyPath);
      InstalledKeeps(keyed, env, certificate.value, render, CsrPath);
    }
  }

  /** The install steps leave every file other than the certificate and the config as it was. */
  lemma InstalledKeeps(d: Container, env: Env, certificate: string, render: ConfigContext -> string, path: string)
    requires env.nrfUrl.Some? && env.webuiUrl.Some? && env.podIp.Some?
    requires path != CertificatePath && path != ConfigFilePath
    ensures var files := Installed(d, env, certificate, render).files;
            (path in files <==> path in d.files) && (path in d.files ==> files[path] == d.files[path])
  {
  }

  /** The key and CSR the first run leaves are kept by the second, which therefore answers the same CSR. */
  lemma SecondRunKeepsKeyAndCsr(c: Container, env: Env, freshKey: string, generateCsr: string -> string, render: ConfigContext -> string)
    requires env.nrfUrl.Some? && env.webuiUrl.Some? && env.podIp.Some?
    ensures var c1 := ConfiguredState(c, env, freshKey, generateCsr, render);
            && KeyEffects(c1, freshKey) == [] && CsrEffects(c1, freshKey, generateCsr) == []
            && StoredCsr(c1, freshKey, generateCsr) == StoredCsr(c, freshKey, generateCsr)
            && Keyed(c1, freshKey, generateCsr) == c1
  {
    var c1 := ConfiguredState(c, env, freshKey, generateCsr, render);
    ConfiguredKeyAndCsr(c, env, freshKey, generateCsr, render);
    assert c1.files[PrivateKeyPath := c1.files[PrivateKeyPath]][CsrPath := c1.files[CsrPath]] == c1.files;
  }

  /** The second run when the first rendered the config: nothing to store, and a replan that changes nothing. */
  lemma SecondRunRendered(c: Container, env: Env, freshKey: string, generateCsr: string -> string, render: ConfigContext -> string,
                          certificate: string, content: string)
    requires env.nrfUrl.Some? && env.webuiUrl.Some? && env.podIp.Some? && c.plan.Keys <= {AmfServiceName}
    requires FirstCertificateFor(env.assignedCertificates, StoredCsr(c, freshKey, generateCsr)) == Some(certificate)
    requires certificate != "" && DesiredConfig(env, render) == Some(content)
    ensures var c1 := ConfiguredState(c, env, freshKey, generateCsr, render);
            && InstallEffects(c1, env, certificate, render) == Reconciliation([Replan], Configured)
            && Installed(c1, env, certificate, render) == c1
  {
    PathsDistinct();
    var c1 := ConfiguredState(c, env, freshKey, generateCsr, render);
    assert c1.files[CertificatePath] == certificate && c1.files[ConfigFilePath] == content;
    assert c1.plan == AmfLayerServices(env.podIp.value) && AmfServiceName in c1.running;
    assert c1.files[CertificatePath := certificate][ConfigFilePath := content] == c1.files;
    assert c1.running + {AmfServiceName} == c1.running;
    InstallEffectsRendered(c1, env, certificate, render, content);
  }

  /** The second run when the first stored a certificate but the config did not render: nothing to store. */
  lemma SecondRunUnrendered(c: Container, env: Env, freshKey: string, generateCsr: string -> string, render: ConfigContext -> string,
                            certificate: string)
    requires env.nrfUrl.Some? && env.webuiUrl.Some? && env.podIp.Some?
    requires FirstCertificateFor(env.assignedCertificates, StoredCsr(c, freshKey, generateCsr)) == Some(certificate)
    requires certificate != "" && DesiredConfig(env, render).None?
    ensures var c1 := ConfiguredState(c, env, freshKey, generateCsr, render);
            && InstallEffects(c1, env, certificate, render) == Reconciliation([], ConfigRenderRaised)
            && Installed(c1, env, certificate, render) == c1
  {
    PathsDistinct();
    var c1 := ConfiguredState(c, env, freshKey, generateCsr, render);
    assert c1.files[CertificatePath] == certificate;
    assert c1.files[CertificatePath := certificate] == c1.files;
  }

  /** A second run past the preconditions stops where the first did and at most replans. */
  lemma SecondConfigureRun(c: Container, env: Env, freshKey: string, generateCsr: string -> string, render: ConfigContext -> string)
    requires env.nrfUrl.Some? && env.webuiUrl.Some? && env.podIp.Some? && c.plan.Keys <= {AmfServiceName}
    ensures var first := ConfigureEffects(c, env, freshKey, generateCsr, render);
            var c1 := ConfiguredState(c, env, freshKey, generateCsr, render);
            var second := ConfigureEffects(c1, env, freshKey, generateCsr, render);
            && second.stop == first.stop
            && second.effects == (if first.stop == Configured then [Replan] else [])
            && ConfiguredState(c1, env, freshKey, generateCsr, render) == c1
  {
    SecondRunKeepsKeyAndCsr(c, env, freshKey, generateCsr, render);
    var certificate := FirstCertificateFor(env.assignedCertificates, StoredCsr(c, freshKey, generateCsr));
    if Truthy(certificate) {
      match DesiredConfig(env, render)
      case None => SecondRunUnrendered(c, env, freshKey, generateCsr, render, certificate.value);
      case Some(content) => SecondRunRendered(c, env, freshKey, generateCsr, render, certificate.value, content);
    }
  }

  /** Readiness depends on the container only through reachability and the config directory. */
  lemma ReadinessIgnoresFiles(env: Env, c: Container, c': Container)
    requires c'.canConnect == c.canConnect && c'.dirs == c.dirs
    ensures ReadyToConfigure(env, c') == ReadyToConfigure(env, c)
  {
  }

  /** Configuring leaves reachability and the directories as they were, and the plan with the AMF service only. */
  lemma ConfiguredStateKeeps(c: Container, env: Env, freshKey: string, generateCsr: string -> string, render: ConfigContext -> string)
    requires env.nrfUrl.Some? && env.webuiUrl.Some? && env.podIp.Some? && c.plan.Keys <= {AmfServiceName}
    ensures var c1 := ConfiguredState(c, env, freshKey, generateCsr, render);
            c1.canConnect == c.canConnect && c1.dirs == c.dirs && c1.plan.Keys <= {AmfServiceName}
  {
  }

  /**
   * `_configure_amf` is idempotent: run again on the container it left, with the same inputs,
   * it stops where the first run stopped, writes no file, requests no certificate, adds no
   * layer and restarts nothing; at most it replans, which changes nothing.
   */
  lemma ReconcileIdempotent(c: Container, env: Env, freshKey: string, generateCsr: string -> string, render: ConfigContext -> string)
    requires c.plan.Keys <= {AmfServiceName}
    ensures var first := Reconcile(c, env, freshKey, generateCsr, render);
            var c1 := ApplyAll(c, first.effects);
            var second := Reconcile(c1, env, freshKey, generateCsr, render);
            && second.stop == first.stop
            && second.effects == (if first.stop == Configured then [Replan] else [])
            && ApplyAll(c1, second.effects) == c1
  {
    if ReadyToConfigure(env, c) {
      ConfigureOutcome(c, env, freshKey, generateCsr, render);
      var c1 := ConfiguredState(c, env, freshKey, generateCsr, render);
      ConfiguredStateKeeps(c, env, freshKey, generateCsr, render);
      ReadinessIgnoresFiles(env, c, c1);
      SecondConfigureRun(c, env, freshKey, generateCsr, render);
      ConfigureOutcome(c1, env, freshKey, generateCsr, render);
    }
  }

  // ---------------------------------------------------------------- certificate teardown

  /** Removing a path that is absent changes nothing; removing it otherwise drops it alone. */
  lemma ApplyRemoveIfPresent(c: Container, path: string)
    ensures ApplyAll(c, RemoveIfPresent(c, path)) == c.(files := c.files - {path})
  {
    if path in c.files {
      ApplyAllSnoc(c, [], RemovePath(path));
      assert [] + [RemovePath(path)] == [RemovePath(path)];
    } else {
      assert c.files - {path} == c.files;
    }
  }

  /** Removing three distinct paths, each decided on the starting container, drops exactly those three. */
  lemma ApplyRemoveThree(c: Container, p1: string, p2: string, p3: string)
    requires p1 != p2 && p1 != p3 && p2 != p3
    ensures ApplyAll(c, RemoveIfPresent(c, p1) + RemoveIfPresent(c, p2) + RemoveIfPresent(c, p3))
            == c.(files := c.files - {p1} - {p2} - {p3})
  {
    var c1 := c.(files := c.files - {p1});
    var c2 := c1.(files := c1.files - {p2});
    ApplyRemoveIfPresent(c, p1);
    assert RemoveIfPresent(c1, p2) == RemoveIfPresent(c, p2);
    ApplyAllConcat(c, RemoveIfPresent(c, p1), RemoveIfPresent(c, p2));
    ApplyRemoveIfPresent(c1, p2);
    assert RemoveIfPresent(c2, p3) == RemoveIfPresent(c, p3);
    ApplyAllConcat(c, RemoveIfPresent(c, p1) + RemoveIfPresent(c, p2), RemoveIfPresent(c, p3));
    ApplyRemoveIfPresent(c2, p3);
  }

  /** `_on_certificates_relation_broken` leaves the container without the key, the CSR and the certificate, and otherwise unchanged. */
  lemma TeardownRemovesTlsFiles(c: Container)
    ensures ApplyAll(c, TeardownEffects(c)) == c.(files := c.files - {PrivateKeyPath} - {CsrPath} - {CertificatePath})
  {
    PathsDistinct();
    ApplyRemoveThree(c, PrivateKeyPath, CsrPath, CertificatePath);
  }

  /** Handling the relation-broken event a second time removes nothing. */
  lemma TeardownIdempotent(c: Container)
    ensures TeardownEffects(ApplyAll(c, TeardownEffects(c))) == []
  {
    TeardownRemovesTlsFiles(c);
  }
}

# SD-Core AMF charm — a Dafny model

This project models the core of the Juju operator charm for the SD-Core 5G Access and
Mobility Management Function (AMF) on Kubernetes. It covers three parts.

- **The charm (`src/charm.py`).** Modelled in `charm_model.dfy` and `charm.dfy`:
  - `_configure_amf` makes sure the external LoadBalancer Service exists. Once every
    precondition holds, it stores a private key and a CSR if they are absent. It installs the
    certificate that the TLS provider assigned to the stored CSR, and the rendered `amfcfg.conf`,
    each only when it differs from what is stored. It then adds the Pebble layer and replans
    when the plan differs, and restarts the `amf` service exactly when the certificate or the
    config changed. Last, it hands the N2 endpoint record to the fiveg_n2 provider.
  - `_on_collect_unit_status` walks an ordered chain of checks and adds the status of the
    first one that fails. Before the certificate and service checks, a refused N2 record adds
    a MetalLB status.
  - The TLS handlers delete the key, CSR and certificate when the relation breaks, and request
    a new certificate when the stored one is expiring. `_on_remove` deletes the external
    Service.
- **The fiveg_n2 interface library (`lib/charms/sdcore_amf/v0/fiveg_n2.py`).** Modelled in
  `fiveg_n2.dfy`: the validator of the provider's databag, the requirer's accessors and event,
  and the provider's `set_n2_information`.
- **The Kubernetes Service helper (`src/k8s_service.py`).** Modelled in `k8s_service.dfy`:
  create, patch, is_created, requires_patch, remove, get_ip and get_hostname, over a cluster
  holding a map of Service objects.

The charm is the class `AmfCharm.AmfOperatorCharm`:

- It holds the workload container: files, directories, Pebble plan and running services.
- It holds a log of every effect performed: push, remove, add layer, replan, restart and
  certificate request.
- Every change to the container goes through one method, which applies an effect and logs it.
- Each handler's contract states the exact effects it appends, as a function of the state it
  started in (`CharmModel.Reconcile`, `CharmModel.TeardownEffects`, …), and that the new
  container is those effects applied to the old one.
- `charm_properties.dfy` then proves what those effects mean:
  - the container a configuration run leaves;
  - which files a run writes, and when;
  - that a restart happens exactly when the certificate or the config changed;
  - that a second run with the same inputs writes nothing and only replans;
  - that the certificate teardown is a no-op when repeated;
  - that the status chain and `ready_to_configure` agree.

The Juju inputs of one event are the datatype `CharmModel.Env`:

- leadership, config, the relations that exist, the database state and data;
- the NRF and webui URLs, the pod IP, and the certificates assigned by the TLS provider.

Supporting modules:

- `Wrappers`: `Option` and `Outcome`.
- `PyStr`: the Python string operations the charm relies on — `str(int)`, `int(str)`,
  `strip`, `join`, `split(...)[0]`, and the `repr` of a list of strings.
- `UnitStatus`: the ops rule that picks the reported unit status from several added
  statuses. Higher priority wins (blocked > maintenance > waiting > active); on a tie, the
  first added wins.

Where the sources disagree with each other, the model follows the code and says so here:

- **N2 provider library.** `src/charm.py` imports `N2Provides` from
  `charms.sdcore_amf_k8s.v0.fiveg_n2`. That library is not part of this model. The library
  that is modelled (`charms.sdcore_amf.v0.fiveg_n2`) has a different
  `set_n2_information(amf_hostname, ngapp_port)` signature. The charm side therefore models
  `_set_n2_information` as the record it hands over (IP, hostname, port). Whether the
  provider raises `ValueError` is the abstract predicate `providerAccepts`.
- **K8sService constructor.** `src/charm.py:109-114` builds `K8sService` without the
  `unit_id` argument that `src/k8s_service.py:22-29` requires. The model's constructor passes
  the unit's id.

## Model

| member | source | states |
|---|---|---|
| `K8s.AppliedService` | src/k8s_service.py:37-57 | the applied Service is a LoadBalancer in the given namespace and name, selects the app's pods by name, and has the single SCTP port "ngapp" |
| `K8s.FirstIngress` | src/k8s_service.py:108-134 | the first load-balancer ingress exists exactly when the object, its status, its load-balancer status and a non-empty ingress list all exist, and it is element 0 |
| `K8s.SelectorNeedsPatch` | src/k8s_service.py:83-96 | over a fetched object: a patch is needed exactly when there is an object with a spec whose selector does not map the pod-index label to the unit id (an empty selector included) |
| `K8s.K8sService.constructor` | src/k8s_service.py:22-35 | the helper keeps namespace, Service name, port, app name and unit id as given |
| `K8s.K8sService.Fetch` | src/k8s_service.py:75-81 | the lookup succeeds exactly when the cluster holds the (namespace, name) key, and returns the object stored there; a missing key is the API's not-found error |
| `K8s.K8sService.IsCreated` | src/k8s_service.py:75-81 | true exactly when the cluster holds a Service under this namespace and name |
| `K8s.K8sService.RequiresPatch` | src/k8s_service.py:83-96 | true exactly when the Service exists, has a spec, and its selector lacks this unit's pod-index label or maps it to another unit |
| `K8s.K8sService.GetIp` | src/k8s_service.py:108-120 | `None` whenever any link of the chain is missing; otherwise exactly the `ip` of the first ingress entry |
| `K8s.K8sService.GetHostname` | src/k8s_service.py:122-134 | `None` whenever any link of the chain is missing; otherwise exactly the `hostname` of the first ingress entry |
| `K8s.K8sService.Create` | src/k8s_service.py:37-57 | the cluster gains the applied Service under this key, no other Service changes, and the Service then exists |
| `K8s.K8sService.Patch` | src/k8s_service.py:59-73 | on an existing Service, merges this unit's pod-index into the selector and no longer requires a patch; on a missing one, fails and changes nothing |
| `K8s.K8sService.Remove` | src/k8s_service.py:98-106 | the Service is gone and nothing else changes; fails exactly when it did not exist |
| `K8s.AppliedServiceIdempotent` | src/k8s_service.py:37-57 | applying the Service to the object a first apply produced gives that same object |
| `K8s.PatchedNeedsNoPatch` | src/k8s_service.py:83-96 | after a patch with unit id `u`, `requires_patch` is false for `u` |
| `K8s.AppliedNeedsPatch` | src/k8s_service.py:83-96 | a Service created where none existed has no pod-index selector, so it requires a patch |
| `PyStr.ParseIntOfIntToStr` | lib/charms/sdcore_amf/v0/fiveg_n2.py:223-231 | `int(str(n)) == n` for every integer, and `str(n)` is an integer numeral |
| `PyStr.StripLeftIsSuffix` | src/charm.py:518-521 | left stripping keeps a suffix, drops only whitespace, and what it keeps does not start with whitespace |
| `PyStr.StripRightIsPrefix` | src/charm.py:518-521 | right stripping keeps a prefix, drops only whitespace, and what it keeps does not end with whitespace |
| `PyStr.FirstField` | src/charm.py:630 | `split(",")[0]`: a prefix of the URI list holding no comma, that is either the whole list or ends just before its first comma |
| `PyStr.FirstFieldUnique` | src/charm.py:630 | the first field is the only comma-free prefix that is the whole list or stops just before a comma, so the contract of `FirstField` pins the database URL down |
| `UnitStatus.HighestIndex` | src/charm.py:249-265 | the reported status has the highest priority among those added, and every earlier status has strictly lower priority |
| `UnitStatus.Priority` | src/charm.py:249-265 | the ops ranking: blocked is the highest (4), then maintenance (3), waiting (2), and active the lowest (1) |
| `UnitStatus.Reported` | src/charm.py:249-265 | the reported status is one of those added, none added has a higher priority, and no earlier one has the same priority |
| `FivegN2.DataIsValid` | lib/charms/sdcore_amf/v0/fiveg_n2.py:134-157 | valid data holds both keys with a str hostname and a non-None port; a str hostname with an int port always validates |
| `FivegN2.StrBagValidIff` | lib/charms/sdcore_amf/v0/fiveg_n2.py:134-157 | a databag read from Juju (`dict(relation.data[app])`, all str values, line 252) validates exactly when it holds both keys and the port is an integer numeral; other keys play no part |
| `FivegN2.RemoteAppRelationData` | lib/charms/sdcore_amf/v0/fiveg_n2.py:233-256 | `None` without a relation or remote app; otherwise the remote app's bag exactly when it validates |
| `FivegN2.GetRelation` | lib/charms/sdcore_amf/v0/fiveg_n2.py:245 | the lookup by name raises `TooManyRelatedAppsError` exactly when more than one relation exists; otherwise the single relation, or `None` when there is none |
| `FivegN2.AmfHostname` | lib/charms/sdcore_amf/v0/fiveg_n2.py:211-221 | raises exactly when several relations exist (the lookup at line 245); `None` with no relation; with one, present exactly when its remote data validates, and then its `amf_hostname` |
| `FivegN2.NgappPort` | lib/charms/sdcore_amf/v0/fiveg_n2.py:222-231 | raises exactly when several relations exist (the lookup at line 245); `None` with no relation; with one, present exactly when its remote data validates, and then `int()` of its `ngapp_port` numeral |
| `FivegN2.OnRelationChanged` | lib/charms/sdcore_amf/v0/fiveg_n2.py:196-209 | the event is emitted exactly when there is a remote app and its bag validates, and it carries that bag's hostname and port strings |
| `FivegN2.PublishedBag` | lib/charms/sdcore_amf/v0/fiveg_n2.py:267-294 | the update sets both keys, adds no others, and keeps every other key's value |
| `FivegN2.PublishToIdempotent` | lib/charms/sdcore_amf/v0/fiveg_n2.py:267-294 | publishing the same record twice leaves what publishing once left |
| `FivegN2.N2Provides.SetN2Information` | lib/charms/sdcore_amf/v0/fiveg_n2.py:267-294 | a non-leader gets the leader error; with no relation, the not-created error; invalid data gets the ValueError; a leader with a relation and valid data succeeds; on any error no databag changes; on success every relation under the name holds the published app bag |
| `FivegN2.InvalidPortRejected` | lib/charms/sdcore_amf/v0/fiveg_n2.py:143-157 | a port of "invalid_port123" does not validate |
| `FivegN2.PublishedBagReadsBack` | lib/charms/sdcore_amf/v0/fiveg_n2.py:134-157 | what the provider writes for a hostname and an int port validates, whatever else the bag holds, and reads back as the same hostname and port |
| `FivegN2.RequirerReadsPublished` | lib/charms/sdcore_amf/v0/fiveg_n2.py:196-256 | a requirer whose single relation's remote bag was published sees that hostname and port through its accessors and gets the event |
| `CharmModel.MissingFrom` | src/charm.py:267-284 | a relation is reported missing exactly when it is required and absent; no more names than required |
| `CharmModel.MissingFromConcat` | src/charm.py:275-284 | the missing names keep the order of the required names: those of `a + b` are those of `a` followed by those of `b` |
| `CharmModel.MissingRelationsInOrder` | src/charm.py:267-284 | the missing relations are exactly fiveg_nrf, database, certificates, sdcore_config in that order, each present in the list exactly when it has no relation |
| `CharmModel.InvalidConfigsOf` | src/charm.py:541-553 | only "dnn" can be reported, and it is reported exactly when the DNN config is absent or empty |
| `CharmModel.FirstMatchIndex` | src/charm.py:417-426 | the first assigned certificate whose CSR is the stored one, or past the end when none is |
| `CharmModel.FirstCertificateFor` | src/charm.py:417-426 | `None` exactly when no assigned certificate answers the CSR; otherwise the certificate of the first entry that does |
| `CharmModel.FirstFailingIndex` | src/charm.py:181-265 | every check before the index passes, and the check at the index fails |
| `CharmModel.ReadyToConfigureIffChecksPass` | src/charm.py:286-319 | `ready_to_configure` holds exactly when each of its nine checks passes |
| `CharmModel.ReadyToConfigure` | src/charm.py:286-319 | when ready, the container answers, the config is valid, all required relations exist, the database is created with data, the NRF and webui URLs and the pod IP are set, and storage is attached |
| `CharmModel.AmfServiceIsRunning` | src/charm.py:790-802 | false when the container does not answer; otherwise true exactly when the plan has the `amf` service and it runs |
| `CharmModel.WorkloadVersion` | src/charm.py:523-539 | a version is set exactly when the version file exists and is not empty, and it is the file's content |
| `CharmModel.AmfHostname` | src/charm.py:782-788 | the cluster FQDN of `<app>-external` in the model's namespace |
| `CharmModel.N2AmfIp` | src/charm.py:572-583 | the `external-amf-ip` config when set and non-empty, otherwise the load balancer's IP |
| `CharmModel.N2AmfHostname` | src/charm.py:585-600 | never empty; the configured hostname, else the load balancer's hostname, else the internal FQDN |
| `CharmModel.N2Publication` | src/charm.py:602-612 | a record is handed over exactly when the fiveg-n2 relation exists and the AMF service runs, with the chosen IP, the chosen hostname and the NGAP port |
| `CharmModel.ConfigContextFor` | src/charm.py:614-636 | the config renders exactly when the DNN is non-empty and the database data has "uris"; it then uses that DNN, the pod IP, the NRF and webui URLs, the first comma-separated URI, and the fixed ports, database name, network names and "https" scheme |
| `CharmModel.ExistingCertificate` | src/charm.py:375-377 | the stored certificate when the file exists, "" otherwise |
| `CharmModel.IsCertificateUpdateRequired` | src/charm.py:363-373 | with a stored certificate: required exactly when it differs from the provider's; without one, exactly when the provider's is not empty |
| `CharmModel.IsConfigUpdateRequired` | src/charm.py:340-353 | not required exactly when the config file exists and holds the desired content |
| `CharmModel.PebbleEffects` | src/charm.py:379-396 | restarts `amf` exactly when asked to, adds the layer exactly when the plan's services differ from it, performs nothing but add-layer, replan and restart, and ends with the restart or a replan |
| `CharmModel.Reconcile` | src/charm.py:150-174 | when not ready to configure, no effect and a stop at the preconditions; when ready, the run gets past them |
| `CharmModel.TeardownEffects` | src/charm.py:398-405 | removes only existing TLS files (key, CSR, certificate), and removes each of them that exists |
| `CharmModel.AmfLayerServices` | src/charm.py:727-745 | the layer declares the `amf` service alone, enabled at startup |
| `CharmModel.InstallEffectsIgnoresKeyAndCsr` | src/charm.py:160-174 | storing a key and a CSR does not change what the certificate, config and Pebble steps do |
| `AmfCharm.FindProviderCertificate` | src/charm.py:417-426 | returns the certificate of the first assigned entry whose CSR is the stored one, and `None` exactly when none is |
| `AmfCharm.AmfOperatorCharm.constructor` | src/charm.py:78-133 | the external Service is `<app>-external` in the model's namespace on the NGAP port; the effect log starts empty |
| `AmfCharm.AmfOperatorCharm.SetN2Information` | src/charm.py:602-612 | a record exactly when the fiveg-n2 relation exists and `amf` runs; it carries the NGAP port, the chosen hostname, and the configured external IP or else the IP of the Service's first load-balancer ingress |
| `AmfCharm.AmfOperatorCharm.MissingRelations` | src/charm.py:267-284 | the loop returns the required relations that do not exist, in the fixed order fiveg_nrf, database, certificates, sdcore_config |
| `AmfCharm.AmfOperatorCharm.InvalidConfigs` | src/charm.py:541-553 | empty exactly when the DNN is set and non-empty, otherwise `["dnn"]` |
| `AmfCharm.AmfOperatorCharm.RequestNewCertificate` | src/charm.py:447-456 | stores the stripped CSR generated from the stored key, then requests a certificate; only the CSR file changes |
| `AmfCharm.AmfOperatorCharm.UpdateLayer` | src/charm.py:385-391 | adds the layer and replans exactly when the plan's services differ from the layer's |
| `AmfCharm.AmfOperatorCharm.ConfigurePebble` | src/charm.py:379-396 | the layer step, then a restart of `amf` when asked, otherwise a replan |
| `AmfCharm.AmfOperatorCharm.StoreKeyAndCsr` | src/charm.py:154-158 | the key is stored if absent, then the CSR if absent; afterwards both are stored and nothing else changed |
| `AmfCharm.AmfOperatorCharm.StoreCertificate` | src/charm.py:164-167 | pushes the provider's certificate exactly when it differs from the stored one ("" when absent) |
| `AmfCharm.AmfOperatorCharm.PushConfig` | src/charm.py:169-171 | pushes the rendered config exactly when the file is absent or holds other content, and reports whether it did |
| `AmfCharm.AmfOperatorCharm.PushConfigAndConfigurePebble` | src/charm.py:169-174 | pushes the config when absent or different, then configures Pebble, restarting when the certificate or the config changed |
| `AmfCharm.AmfOperatorCharm.InstallCertificateAndConfig` | src/charm.py:164-174 | performs exactly the certificate, config and Pebble effects of `InstallEffects`; stops when the config cannot render |
| `AmfCharm.AmfOperatorCharm.ConfigureWorkload` | src/charm.py:154-174 | performs exactly the effects of `ConfigureEffects`, and stops where it does |
| `AmfCharm.AmfOperatorCharm.ConfigureAmf` | src/charm.py:135-179 | the Service exists afterwards and was applied only if absent; the effects are exactly those of `Reconcile` on the old container; the N2 record is handed over only on a full run |
| `AmfCharm.AmfOperatorCharm.LeadershipAndConfigStatus` | src/charm.py:187-207 | returns a status exactly when one of the first three checks fails, and then the first failure's status |
| `AmfCharm.AmfOperatorCharm.RelationStatus` | src/charm.py:212-227 | returns a status exactly when the relation or database checks hold the first failure, and then that failure's status |
| `AmfCharm.AmfOperatorCharm.ServiceUrlStatus` | src/charm.py:229-237 | returns a status exactly when the NRF or webui check holds the first failure, and then that failure's status |
| `AmfCharm.AmfOperatorCharm.StorageAndPodIpStatus` | src/charm.py:239-247 | returns a status exactly when the storage or pod IP check holds the first failure, and then that failure's status |
| `AmfCharm.AmfOperatorCharm.PreconditionStatus` | src/charm.py:181-247 | returns a status exactly when the first failure comes before the N2 step, and then that failure's status; the workload version is read once the config check passed |
| `AmfCharm.AmfOperatorCharm.WorkloadStatus` | src/charm.py:255-265 | once the pod IP is known: the certificate, service-running or active status that the first failing check decides |
| `AmfCharm.AmfOperatorCharm.OnCollectUnitStatus` | src/charm.py:181-265 | the last status added is that of the first failing check, or active; a refused N2 record adds the MetalLB status first; the N2 record and the workload version are set exactly past their checks |
| `AmfCharm.AmfOperatorCharm.DeleteIfPresent` | src/charm.py:458-477 | removes the file exactly when it exists; afterwards the path is absent and nothing else changed |
| `AmfCharm.AmfOperatorCharm.OnCertificatesRelationBroken` | src/charm.py:398-405 | defers without effect when the container cannot connect; otherwise performs exactly `TeardownEffects` |
| `AmfCharm.AmfOperatorCharm.OnCertificateExpiring` | src/charm.py:407-415 | defers when the container cannot connect; raises when no certificate is stored; ignores another certificate; renews (new CSR and request) the stored one, raising without a key |
| `AmfCharm.AmfOperatorCharm.OnRemove` | src/charm.py:321-338 | afterwards the external Service does not exist, and no other Service changed |
| `CharmProperties.ReadyIffStatusChecksPass` | src/charm.py:286-319 | `ready_to_configure` holds exactly when the status checks from the container check through the pod IP check pass |
| `CharmProperties.LeaderReadyIffPastPodIp` | src/charm.py:187-247 | for the leader, the charm is ready to configure exactly when the status chain gets past the pod IP |
| `CharmProperties.FirstFailingIgnoresLater` | src/charm.py:181-265 | checks after the first failing one cannot change the outcome |
| `CharmProperties.NonLeaderBlocked` | src/charm.py:187-195 | a non-leader is blocked with "Scaling is not implemented for this charm", whatever else holds |
| `CharmProperties.AllChecksPassActive` | src/charm.py:255-265 | when every check passes the status is active |
| `CharmProperties.MetalLbReported` | src/charm.py:249-258 | when the N2 record is refused, ops reports the MetalLB status over any later status |
| `CharmProperties.OnlyNrfMissing` | src/charm.py:267-284 | with only fiveg_nrf absent, exactly fiveg_nrf is missing |
| `CharmProperties.OnlyNrfMissingStatus` | src/charm.py:212-217 | with only fiveg_nrf absent, the unit is blocked waiting for "fiveg_nrf relation(s)" |
| `CharmProperties.NoMissingRelationsIff` | src/charm.py:267-284 | nothing is missing exactly when all four required relations exist |
| `CharmProperties.DnnInvalidIff` | src/charm.py:541-553 | "dnn" is invalid exactly when the config has no non-empty DNN |
| `CharmProperties.ApplyKey` | src/charm.py:442-445 | the key step leaves the stored key, or the fresh one where none was stored, and nothing else changed |
| `CharmProperties.ApplyCsrRequest` | src/charm.py:447-456 | requesting a certificate stores the stripped CSR and changes nothing else |
| `CharmProperties.ApplyKeyAndCsr` | src/charm.py:154-158 | after the key and CSR steps, the stored (or fresh) key and the stored (or new) CSR are present, and nothing else changed |
| `CharmProperties.ApplyCertificate` | src/charm.py:505-508 | after the certificate step the provider's certificate is stored, and nothing else changed |
| `CharmProperties.ApplyConfig` | src/charm.py:691-701 | after the config step the rendered content is stored, and nothing else changed |
| `CharmProperties.ApplyPebble` | src/charm.py:379-396 | for a plan holding only `amf`, configuring Pebble leaves the AMF layer as the plan and `amf` running |
| `CharmProperties.ApplyInstallRendered` | src/charm.py:160-174 | with a rendered config, the install steps reach the state with the certificate and config stored, the layer planned and `amf` running |
| `CharmProperties.ApplyInstall` | src/charm.py:160-174 | the install steps reach `Installed`, whether or not the config renders |
| `CharmProperties.ConfigurePrefixOutcome` | src/charm.py:154-158 | the key and CSR steps reach `Keyed` |
| `CharmProperties.ConfigureOutcome` | src/charm.py:154-174 | the steps past the preconditions reach `ConfiguredState` |
| `CharmProperties.ReconcileOutcome` | src/charm.py:135-179 | a whole run leaves the container unchanged when not ready, and in `ConfiguredState` otherwise |
| `CharmProperties.PrefixWrites` | src/charm.py:154-158 | the key and CSR steps write exactly the key when absent and the CSR when absent |
| `CharmProperties.InstallWrites` | src/charm.py:160-174 | the install steps write the certificate exactly when it differs, and the config exactly when it renders and differs |
| `CharmProperties.ConfigureWrites` | src/charm.py:154-174 | the files written past the preconditions: the key and CSR where absent, plus the install writes when a certificate answers |
| `CharmProperties.ConfigureWritesKeyAndCsr` | src/charm.py:154-158 | at most the four TLS and config files are written; the key and the CSR each exactly when absent |
| `CharmProperties.ConfigureWritesCertificateAndConfig` | src/charm.py:160-171 | the certificate is written exactly when one answers and differs; the config exactly when one answers and the config renders and differs |
| `CharmProperties.ReconcileWrites` | src/charm.py:135-179 | nothing happens unless ready; only the four files are ever written; each is written exactly under its own condition |
| `CharmProperties.FileSteps` | src/charm.py:154-171 | the key, CSR, certificate and config steps push files and request certificates only |
| `CharmProperties.UnrenderedFileStepsOnly` | src/charm.py:160-174 | without an answering certificate, a run stops before Pebble and performs file steps only |
| `CharmProperties.RenderedRestartsIffChanged` | src/charm.py:160-174 | with a rendered config, `amf` restarts exactly when the certificate or the config changed, and the layer is added exactly when the plan differs |
| `CharmProperties.ConfigureRestartsIffChanged` | src/charm.py:154-174 | `amf` restarts exactly when a full run wrote the certificate or the config; the layer is added exactly on a full run whose plan differs |
| `CharmProperties.ReconcileRestartsIffChanged` | src/charm.py:135-179 | the same for a whole `_configure_amf` run, which restarts and re-layers nothing unless ready |
| `CharmProperties.InstalledKeeps` | src/charm.py:164-174 | the certificate, config and Pebble steps leave every file other than the certificate and the config as it was |
| `CharmProperties.ConfiguredKeyAndCsr` | src/charm.py:154-174 | after a run past the preconditions, the key and the CSR are the stored (or fresh) key and the stored (or new, stripped) CSR |
| `CharmProperties.SecondRunKeepsKeyAndCsr` | src/charm.py:154-158 | after a run, the next run generates no key and no CSR, and answers the same CSR |
| `CharmProperties.SecondRunRendered` | src/charm.py:160-174 | after a full run, the install steps of the next run only replan, and change nothing |
| `CharmProperties.SecondRunUnrendered` | src/charm.py:160-171 | after a run whose config did not render, the next run stores nothing and stops at the same point |
| `CharmProperties.SecondConfigureRun` | src/charm.py:154-174 | a second run past the preconditions stops where the first did and at most replans |
| `CharmProperties.ReadinessIgnoresFiles` | src/charm.py:286-319 | readiness depends on the container only through reachability and the config directory |
| `CharmProperties.ReconcileIdempotent` | src/charm.py:135-179 | a second `_configure_amf` run with the same inputs stops where the first did, performs only a replan after a full run (nothing otherwise), and leaves the container as the first run left it |
| `CharmProperties.ApplyRemoveIfPresent` | src/charm.py:458-477 | a `_delete_*` helper leaves the container without that file and otherwise unchanged |
| `CharmProperties.TeardownRemovesTlsFiles` | src/charm.py:398-405 | the relation-broken handler leaves the container without the key, CSR and certificate, and otherwise unchanged |
| `CharmProperties.TeardownIdempotent` | src/charm.py:398-405 | handling the relation-broken event a second time removes nothing |

## Left out

- Logging, metrics (`MetricsEndpointProvider`), log forwarding, `set_ports`, and the wiring of
  events to handlers in `__init__` are not modelled. They do not affect what a handler does.
- Every handler except collect-status is registered only on the leader (`src/charm.py:81-88`).
  The model's handler methods are specified for any unit; leadership enters only the status
  chain.
- The Jinja2 template is the abstract function `render` over the template arguments, because
  template rendering is I/O.
- `generate_private_key` is a `freshKey` parameter and `generate_csr` the abstract function
  `generateCsr`, because key generation is random and cryptographic.
- The N2 provider library the charm imports (`charms.sdcore_amf_k8s.v0.fiveg_n2`) is not part
  of this model. Its acceptance of the record is the abstract predicate `providerAccepts`.
- `_on_n2_relation_joined` (`src/charm.py:561-570`) only calls `_set_n2_information` and
  ignores the ValueError. It is covered by `AmfCharm.AmfOperatorCharm.SetN2Information`,
  which returns the record handed over.
- Pebble is simplified to a plan (a map of services), a set of running services, replan
  (start every enabled service) and restart. Layer merging with `combine=True` is a map
  override.
- ops' `Model.get_relation` is not part of this model. `FivegN2.GetRelation` takes the
  relations established under the interface's name as a sequence and follows its documented
  outcomes: `None`, the one relation, or `TooManyRelatedAppsError`.
- Only the Kubernetes API's not-found error is modelled. Transport errors and other
  `ApiError`s are left out.
- The pod IP, the NRF and webui URLs, the database state and data, and the assigned
  certificates are inputs of one event (`CharmModel.Env`). How the relation libraries obtain
  them is not modelled.
- `CharmModel.WorkloadVersion` combines `_get_workload_version` with the caller's
  truthiness test at `src/charm.py:209-210`.
- pydantic's integer parsing is modelled as an optional sign followed by ASCII digits.
  Surrounding whitespace and digit underscores are left out.
- `CharmProperties.ReconcileIdempotent` requires a Pebble plan with no service other than
  `amf`. With another service, `_configure_pebble` compares the whole plan with the layer,
  finds them different, and re-adds the layer and replans on every run.
- `CharmProperties.ApplyPebble` has the same requirement, because a merged layer leaves any
  other service in the plan.
- `CharmProperties.ApplyInstallRendered`, `CharmProperties.ApplyInstall`,
  `CharmProperties.ConfigureOutcome` and `CharmProperties.ReconcileOutcome` have the same
  requirement, for the same reason.
- `CharmProperties.SecondRunRendered` and `CharmProperties.SecondConfigureRun` have the same
  requirement, for the same reason.
- `CharmProperties.ApplyCertificate` requires a non-empty certificate. `_configure_amf`
  returns before storing an empty one (`src/charm.py:160-162`).
- `K8s.AppliedService` models the server-side apply of `create` as a replace of the whole spec
  that keeps the status. Field-manager merging over an existing object is not modelled; the
  charm applies only when no Service exists (`src/charm.py:147-148`).

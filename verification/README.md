# Open Service Mesh: a verified model of the control plane's protocols

Open Service Mesh (OSM) runs Envoy beside every workload. Its control plane issues the certificates with which proxies
authenticate each other, compiles traffic policies for them, intercepts the traffic of each pod with iptables, and tells the
proxies when to fetch new configuration. This project models the four parts of that control plane that are protocols or
compilers, and proves what they promise over every run and every input.

**Root-certificate rotation.** MeshRootCertificates (MRCs) are Active, Passive or Inactive. The webhook admits changes of them
(`Webhook`), every control-plane process runs a manager that turns MRC events into a pair of issuers (`Reconciler`), issues
certificates and renews them (`Issuance`, `Manager`, `CertificateLifetime`), and a command drives a rotation (`RotationPlan`,
`RotateCli`). `RotationProtocol` puts these together as a transition system: any number of managers that lag, restart, and list
MRCs in any order, each with its own cache, and proxies that are slow to fetch what has been issued to them. The main results are
that any two certificates in use trust each other at every moment, that a workload's certificate always presents a principal that
every controller allows, and (`RotationProgress`) that a rotation can always be completed. `MeshAuthorization` joins this with
the policy compiler: whatever rotations happen, the sources of a TrafficTarget stay authorized for its routes.

**Traffic interception.** `Iptables` is the compiler from a pod's settings to iptables commands. `Netfilter` gives those commands
their meaning: appending and inserting rules, and walking chains with jumps and returns. The loaded table does to every packet
exactly what a declarative reading of the settings says. `Exclusions` adds the merging of exclusion lists.

**Proxy updates.** `Dispatcher` is the select loop that coalesces broadcast events with two Go timers, statement by statement,
with timers firing between any two statements. `DispatcherBatches` proves conservation of events, spacing and latency over all
runs, and `DispatcherProgress` that events can always be published.

**Traffic policies and identities.** `RouteGroups`, `InboundCatalog`, `TrafficPolicy` and `InboundPolicies` compile SMI
TrafficTargets (SMI Traffic Access v1alpha3) and HTTPRouteGroups (SMI Traffic Specs v1alpha4) into rules, and merge rules and
policies that are objects shared between lists. `TrafficTargets` lists peers, and `Identity`, `Certificates` and `ProxyIdentity`
print identities into certificates and read them back.

`Wrappers`, `Collections`, `GoStrings` and `Hostnames` hold what the rest needs of Option and Result types, of lists as sets, of
Go's `strings` package and of sorted host lists.

Statements about the outside are made in its own terms and numbers (ports, users, durations, fields of resources), not in those of
the functions that model the code.

`dafny verify dfyconfig.toml` checks the whole project.

## Model

| member | source | states |
|---|---|---|
| `RotationProtocol.RotationSafety` | pkg/certificate/mrc_reconciler.go:7-181 | After any run of admitted creates, updates and deletes, in which each change waits until every manager has handled the previous one and re-issued its certificates and the proxies have fetched them, every certificate that a proxy uses was signed with the provider root of the MRC it names as its signer and trusts exactly that root and the one of its validator, and any two of them trust each other, however managers lag, restart and list MRCs, and however long proxies go on with certificates that have been replaced or released |
| `RotationProtocol.AuthorizationContinuity` | pkg/catalog/inbound_traffic_policies.go:195-206 | After any such run, the principal that a workload's certificate presents is among those that every controller with issuers, lagging or not, computes for the workload as a source, for every account that no MRC in use before or after the last change misprints; an MRC misprints an account if it has SPIFFE on and its trust domain, after a dot, ends the account's identity, or the identity starts with a dot or slash |
| `RotationProtocol.AuthorizationIff` | pkg/catalog/inbound_traffic_policies.go:195-206 | And only for those: with an account without slashes as the only source, its certificate is authorized if and only if its signer does not misprint it |
| `MeshAuthorization.SourcesStayAuthorized` | pkg/catalog/inbound_traffic_policies.go:163-218 | After any such run, at every controller with issuers, a certificate in use that was issued for a source of a TrafficTarget presents a principal that is authorized for every route that the TrafficTarget names, if no MRC in use before or after the last change misprints the account |
| `MeshAuthorization.SourceIsAuthorizedIff` | pkg/catalog/inbound_traffic_policies.go:163-218 | And only then: if the account, without slashes, is the only source, its certificate is authorized if and only if its signer does not misprint it |
| `MeshAuthorization.UnprintedAccountIsShutOut` | pkg/certificate/options.go:45-59 | For every MRC and every account that it misprints, a run of three steps from a new mesh puts a certificate in use that the account's own TrafficTargets do not allow |
| `MeshAuthorization.NamespaceLikeTrustDomainIsShutOut` | pkg/certificate/options.go:45-59 | So it is for the account a in the namespace b of a SPIFFE mesh with the trust domain b |
| `RotationProtocol.PresentsSignersPrincipal` | pkg/certificate/options.go:32-59 | A certificate presents its account's principal under its signer if and only if the signer does not misprint the account |
| `RotationProtocol.AdmittedChangeBridges` | pkg/validator/validators.go:299-361 | Across one admitted change, whoever may sign before it is signer or validator after it and the other way round, and no MRC changes its issuer |
| `RotationProtocol.InvGivesTrust` | pkg/certificate/certificate.go:28-36 | In every state that satisfies the invariant, each of two certificates in use has its issuing root in the other's bundle |
| `RotationProtocol.TrustIff` | pkg/certificate/certificate.go:28-36 | With a root of its own for every MRC, certificates of two configurations trust each other if and only if each one's signer is signer or validator of the other |
| `RotationProtocol.HandedOutIsIssued` | pkg/certificate/manager.go:271-321 | An issuing step of the protocol does to the cache and to the certificates in use exactly what issuing a certificate does, and nothing when the provider fails |
| `RotationProtocol.StepKeepsInv` | pkg/certificate/mrc_reconciler.go:7-36 | Every step of the protocol keeps the invariant: managers hold issuers that the current or the previous configuration permits, and certificates carry the stamps, roots and names of such issuers |
| `RotationProtocol.OnlyFetchRetires` | pkg/certificate/manager.go:271-327 | Whatever step is taken, a certificate stays in use until its proxy fetches another one |
| `RotationProtocol.FetchRetires` | pkg/certificate/manager.go:323-327 | Once it is released and its proxy has fetched, it is out of use |
| `RotationProgress.SettlingRun` | pkg/certificate/manager.go:198-226 | From every reachable state, at any time and with any validities, handling events, re-issuing every certificate for its own request and fetching them leads to a state in which the next change may be made, with the same managers, keys and requests |
| `RotationProgress.RotationCanComplete` | cmd/cli/certificate_rotate.go:111-180 | From every reachable state with one Active MRC and an Inactive target, some run of the protocol ends with the target alone in use; every request that had a certificate has one still, and all certificates that proxies use are signed by the target |
| `RotationProgress.SkippingTheWaitBreaksTrust` | cmd/cli/certificate_rotate.go:138-158 | The wait is needed: from every settled state with a certificate in use and a target with another provider root, a run of admitted changes that do not wait ends with that certificate still in use and not trusting one that is in use too |
| `MeshRootCertificates.ValidConfigCounts` | pkg/certificate/mrc_reconciler.go:67-86 | A configuration is valid if and only if one or two MRCs are in use and at least one of them is Active |
| `MeshRootCertificates.CombinationDecidesValidity` | pkg/certificate/mrc_reconciler.go:66-86 | Whatever the order of the list, the combination check accepts it if and only if the configuration is valid |
| `MeshRootCertificates.CombinationErrorIff` | pkg/certificate/mrc_reconciler.go:66-86 | Which error it reports: no MRC in use, more than two, or none of them Active |
| `Reconciler.FilterOutInactiveMRCs` | pkg/certificate/mrc_reconciler.go:172-181 | Compacts the slice in place: its first part is the MRCs in use, in order |
| `Reconciler.ChosenMRCsArePermitted` | pkg/certificate/mrc_reconciler.go:39-64 | A signing and a validating MRC are chosen if and only if the configuration is valid, and then it permits them |
| `Reconciler.OneEventConverges` | pkg/certificate/mrc_reconciler.go:7-36 | From any prior pair, including none, one event reaches a pair of issuers that the configuration permits if it is valid, and otherwise reports an error and changes nothing |
| `Reconciler.PermittedPairIsStable` | pkg/certificate/mrc_reconciler.go:88-117 | A permitted pair is never replaced, in whatever order the MRCs are listed, and even if both are Active |
| `Reconciler.FirstEventDecides` | pkg/certificate/mrc_reconciler.go:88-126 | After the first event, any number of further events with any list orders and provider failures leave the pair alone |
| `Reconciler.EventKeepsIssuersFaithful` | pkg/certificate/mrc_reconciler.go:128-170 | If the issuers that can be reused have the name, trust domain, SPIFFE flag and root of their MRCs, then so do the issuers after the event; an event that fails changes nothing |
| `Reconciler.FirstEventIssuers` | pkg/certificate/mrc_reconciler.go:128-170 | A manager without issuers gets ones with the name, trust domain, SPIFFE flag and root of the chosen MRCs |
| `Reconciler.EventFailsIff` | pkg/certificate/mrc_reconciler.go:7-36 | An event fails if and only if the configuration is invalid, or the current pair is not permitted and the provider of an MRC in use for which the manager has no issuer cannot be reached |
| `Webhook.MrcWithMatchingRoleExists` | pkg/validator/validators.go:394-404 | Finds whether another MRC of the list has the role |
| `Webhook.GetUseableMRCs` | pkg/validator/validators.go:406-420 | Returns the listed MRCs in use, in order |
| `Webhook.SimulateDesiredCertConfiguration` | pkg/validator/validators.go:422-441 | Gives the verdict on the list with the updated role, as the specification function does |
| `Webhook.ValidateMRCOnCreate` | pkg/validator/validators.go:299-328 | Gives the verdict of the specification function that CreateErrorIff and CreateAdmittedIff characterize |
| `Webhook.ValidateMRCOnUpdate` | pkg/validator/validators.go:330-361 | Gives the verdict of the specification function that UpdateErrorIff and UpdateAdmittedIff characterize |
| `Webhook.CreateAdmittedIff` | pkg/validator/validators.go:299-392 | For every listing of every configuration, a create is admitted if and only if the MRC has a trust domain; its Tresor settings are complete, or it has none and its Vault settings are, or it has neither and its cert-manager settings are; and it is Inactive, or fewer than two MRCs are in use and none has its role |
| `Webhook.CreateErrorIff` | pkg/validator/validators.go:299-392 | Which error a create meets, in terms of the configuration |
| `Webhook.UpdateErrorIff` | pkg/validator/validators.go:330-361 | Which error an update meets: an immutable field, a jump between Active and Inactive, or the error of the configuration it would lead to |
| `Webhook.UpdateAdmittedIff` | pkg/validator/validators.go:330-361 | For every listing, an update is admitted if and only if only the role changes, it does not jump between Active and Inactive, and the resulting configuration is valid |
| `Webhook.AdmittedChangeIsSafe` | pkg/validator/validators.go:299-361 | An admitted change of a valid configuration leaves a valid one, and moves a role by at most one place along Active, Passive, Inactive |
| `Webhook.AdmissionInvariant` | pkg/validator/validators.go:299-361 | Every run of admitted changes from a valid configuration keeps one or two MRCs in use and at least one of them Active |
| `RotationPlan.StageIsValid` | cmd/cli/certificate_rotate.go:134-180 | The configuration after each of the four role updates is valid, and after the last one the target alone is in use and Active |
| `RotationPlan.PlannedUpdateIsAdmitted` | cmd/cli/certificate_rotate.go:134-180 | The webhook admits each of the four updates, for every listing, and each leads to the next stage |
| `RotateCli.FindCurrentInUse` | cmd/cli/certificate_rotate.go:215-241 | Finds the MRC in use if there is exactly one and it is Active, and fails if and only if there is no such MRC |
| `RotateCli.Cluster.UpdateCertificate` | cmd/cli/certificate_rotate.go:243-255 | Sets the role if and only if the MRC exists, the role does not jump and the result is valid, and otherwise changes nothing |
| `RotateCli.GetNewMRCForRotation` | cmd/cli/certificate_rotate.go:257-370 | Provides the target if and only if it exists and is Inactive, or can be created next to a Tresor MRC, and otherwise changes nothing; a created MRC is Inactive, without SPIFFE, of Tresor with the generated secret, and has the requested trust domain, or else the current one |
| `RotateCli.CreateFromFile` | cmd/cli/certificate_rotate.go:272-301 | Never succeeds and changes nothing: looking up a name that is not there is an error, and the command takes that error for a failure; which error it reports |
| `RotateCli.Run` | cmd/cli/certificate_rotate.go:111-202 | Fails exactly if MRCs are not enabled or there is no single Active MRC or no usable target, and then changes nothing; stops exactly at the first prompt that is answered with no, in the valid stage before it; completes with the target alone in use; no role update is rejected |
| `Issuance.FlooredValidity` | pkg/utils/mesh_config.go:123-130 | A configured validity comes out as the larger of itself and ten minutes |
| `Issuance.NewCertificateExpires` | pkg/certificate/manager.go:228-241 | A new certificate expires after the configured service validity, the configured ingress validity, or 87600 hours, by its type |
| `Issuance.ServiceCertificateExpires` | pkg/certificate/manager.go:271-321 | A certificate requested for a service identity is stored under it and expires after the service validity |
| `Issuance.ShouldRotateIff` | pkg/certificate/manager.go:152-196 | A certificate is due if and only if it names other issuers, or has, besides the seconds of noise, no more than five minutes or no more than a third of the validity configured for its type left |
| `Issuance.IssuersInfoIs` | pkg/certificate/manager.go:138-149 | Policy builders learn the trust domain and the SPIFFE flag of the signing and of the validating issuer |
| `Issuance.WindowIsShort` | pkg/certificate/manager.go:152-196 | The renewal window is at least five minutes, grows with the noise, and is shorter than the validity |
| `Issuance.FreshIsNotDue` | pkg/certificate/manager.go:152-189 | A freshly issued certificate is never due for rotation, whatever the noise |
| `Issuance.KeyTellsFullName` | pkg/certificate/options.go:25-42 | The cache key equals the common name if and only if a full name was requested, but for an empty prefix and trust domain |
| `Issuance.RenewalAnswersOriginalRequest` | pkg/certificate/manager.go:198-226 | The options derived from a cached certificate and its key recover whether a full name was requested, and renewing with them issues exactly what the original request would |
| `Issuance.CheckedEntryIsSound` | pkg/certificate/manager.go:198-226 | An entry that went through a check carries the current issuers, keeps its type and has more than five minutes and more than a third of the validity of its type left |
| `CertificateManager.Manager.HandleMRCEvent` | pkg/certificate/mrc_reconciler.go:7-36 | Sets the two issuer fields, and reports errors, as the specification function on which convergence, EventKeepsIssuersFaithful and EventFailsIff are proved |
| `CertificateManager.Manager.IssueCertificate` | pkg/certificate/manager.go:271-321 | Changes the cache, answers and publishes as the specification function, of which NewCertificateExpires and ShouldRotateIff say when certificates expire and are renewed, and keeps every entry under its own key |
| `CertificateManager.Manager.ReleaseCertificate` | pkg/certificate/manager.go:323-327 | Removes the key and nothing else |
| `CertificateManager.Manager.CheckAndRotate` | pkg/certificate/manager.go:198-226 | In any order of the keys, with any times and noises at which they are checked, and with any provider failures, keeps the key set, renews exactly the entries that are due, and publishes exactly one message, with the new certificate, for each replaced entry |
| `CertificateManager.InterruptedCheck` | pkg/certificate/manager.go:198-226 | What a step of a pass does if the cache has changed since the snapshot: it touches only its own key, brings back a released key without a message, leaves a certificate renewed meanwhile, and in each case leaves a certificate with the current issuers and with more than five minutes and a third of its validity left |
| `CertificateManager.SuccessfulPass` | pkg/certificate/manager.go:198-226 | After a pass without failures every entry carries the current issuers and has more than five minutes and a third of its validity left |
| `CertificateLifetime.LifetimeBound` | pkg/certificate/manager.go:152-226 | Over every run in which passes start at most D apart and take at most L, with requests, releases, configuration and issuer changes between any two checks of a pass, every cached certificate has more than five minutes minus D minus L left |
| `CertificateLifetime.LifetimeBoundIsSharp` | pkg/certificate/manager.go:152-226 | With the shortest validity and passes that start at least five minutes apart, some run comes within a nanosecond of the bound; so passes must be less than five minutes apart, and short, for certificates not to expire |
| `CertificateLifetime.WindowBound` | pkg/certificate/manager.go:152-226 | With constant validities, every cached certificate has more than five minutes and more than a third of the configured validity of its type, service, ingress or 87600 hours, minus D minus L left, whatever comes between the checks |
| `CertificateLifetime.RotationSpacing` | pkg/certificate/manager.go:152-189 | With constant validity and issuers, two rotations of one key, by checks or by requests, are at least V - max(V/3, 5 minutes) - 4 seconds apart, for V the service validity, the ingress validity or 87600 hours by the type of the certificate |
| `CertificateLifetime.StepRecordsRotations` | pkg/certificate/manager.go:308-318 | The history of rotations misses no replaced certificate and holds no other |
| `Identity.AccountRoundTrip` | pkg/identity/types.go:57-83 | Printing a service account as an identity and reading it back gives the account if and only if it is free of dots |
| `Identity.PrintedAccountIff` | pkg/identity/types.go:69-83 | Accounts in dot-free namespaces are told apart by their identities, whatever their names |
| `Identity.CanonicalIff` | pkg/identity/types.go:57-67 | An identity is read as the account that is printed so if and only if it has the form name.namespace, with one dot |
| `Identity.WildcardPrincipal` | pkg/identity/types.go:39-55 | With SPIFFE the wildcard's principal is the prefix that the principals of the trust domain share, and otherwise it is the wildcard |
| `Certificates.TrustDomainSuffix` | pkg/certificate/options.go:45-59 | The suffix trimmed off a URI SAN's path is there if and only if the trust domain is the namespace |
| `Certificates.ServicePrincipalIsExpected` | pkg/certificate/options.go:32-59 | For every account, trust domain and flag, a service certificate presents the principal that policies expect if and only if SPIFFE is off, or the trust domain is not empty, does not after a dot end the identity, and the identity does not start with a dot or slash |
| `Certificates.SpiffeUrl` | pkg/certificate/options.go:45-59 | How the URI SAN is written, for every trust domain and path |
| `ProxyIdentity.CommonNameRoundTrip` | pkg/osm/callbacks.go:177-200 | For dot-free parts and any trust domain, parsing the common name built for a proxy returns its kind, UUID and identity if and only if kind, name and namespace are not empty, and fails otherwise |
| `ProxyIdentity.CommonNameIsRead` | pkg/osm/callbacks.go:177-200 | Any common name is read by its first four parts: an error about the UUID if the first is none, an error about the name if one of the others is empty or missing, and otherwise kind, UUID and identity |
| `ProxyIdentity.SpiffeRoundTrip` | pkg/osm/callbacks.go:159-175 | Parsing the SPIFFE path of a proxy's certificate returns its identity if and only if the prefix does not end in a dot and the trust domain, and fails otherwise |
| `ProxyIdentity.SpiffeFailsIff` | pkg/osm/callbacks.go:159-175 | Reading the URI SANs fails if and only if there is not exactly one or its path, without a leading slash, does not have four parts |
| `Principals.AllowedPrincipalIff` | pkg/catalog/inbound_traffic_policies.go:195-206 | A principal is allowed if and only if it is some source's under the signing or the validating issuer, whether or not the issuers differ |
| `Netfilter.LoadAppends` | pkg/injector/iptables.go:14-62 | Appended rules come after the rules of their chain, in order, and leave other chains alone |
| `Netfilter.LoadInserts` | pkg/injector/iptables.go:79-101 | Inserted rules come before the rules of their chain, in reverse order, and leave other chains alone |
| `Netfilter.RangeIsBlock` | pkg/injector/iptables.go:112-148 | A range match accepts exactly the addresses of the block of 2^(32-bits) that holds the base |
| `Netfilter.OctetBlocks` | pkg/injector/iptables.go:112-148 | In particular, at the boundaries of octets, the addresses with the same leading octets |
| `Iptables.GenerateIptablesCommands` | pkg/injector/iptables.go:65-162 | Builds the command list on which the table lemmas are proved, in the order of the loops and branches |
| `Iptables.LoadedChain` | pkg/injector/iptables.go:65-162 | What each chain holds after the commands are loaded into empty chains |
| `Iptables.TableIsCorrect` | pkg/injector/iptables.go:14-162 | For every setting and every packet, evaluating the loaded chains gives the declarative verdict, which is stated by number: arriving TCP packets go to 15003 unless interface or port is excluded or the port is 15010 or 15901 to 15904; leaving ones go to 15001, to 15003, to the pod's address or nowhere, by owner 1500, loopback, 127.0.0.1, exclusions and inclusions |
| `Iptables.EnvoyIsNeverLooped` | pkg/injector/iptables.go:14-38 | No packet owned by user 1500, Envoy, is redirected to 15001, and the ACCEPT rule for port 15000, which stands behind that redirect, is never reached |
| `Iptables.ExclusionsBeatInclusions` | pkg/injector/iptables.go:112-148 | A packet with an excluded interface, range or port is not redirected to the outbound listener, whatever ranges are included |
| `Exclusions.MergePortExclusionLists` | pkg/injector/exclusions.go:60-79 | The mesh-wide and then the pod's ports, each once, at its first place |
| `Exclusions.MergeIPRangeLists` | pkg/injector/exclusions.go:112-129 | The pod's and then the mesh-wide ranges, each once, at its first place |
| `Exclusions.DeduplicatedElements` | pkg/injector/exclusions.go:60-79 | The deduplicated list has the same elements, each once |
| `Exclusions.DeduplicatedKeepsOrder` | pkg/injector/exclusions.go:60-79 | And in the order of their first occurrences |
| `Exclusions.ListsActAsSets` | pkg/injector/iptables.go:79-148 | Settings whose lists have the same elements, in any order and number, give every packet the same verdict |
| `Exclusions.MergedListsActAsUnion` | pkg/injector/exclusions.go:60-129 | Merging a pod's lists with the mesh-wide ones gives every packet the verdict of the plain union |
| `Exclusions.ExclusionsOnlyRelease` | pkg/injector/iptables.go:79-148 | With more exclusions a packet is treated as before or left untouched |
| `Dispatcher.StepKeepsTimersInv` | pkg/messaging/broker.go:142-208 | Every statement, timer firing and arrival keeps each timer either running or holding a token, or, between Stop and Reset, in the state that the next statement expects |
| `Dispatcher.DrainSafety` | pkg/messaging/broker.go:121-215 | In no interleaving does a drain block, and at every select each timer is running or holds a token, not both |
| `DispatcherBatches.EventsAreConserved` | pkg/messaging/broker.go:142-245 | Every received broadcast event is in exactly one batch, in order, or pending; batch counts and published messages agree with the batches; the dispatched counter is batches plus direct publishes; the queued counter is received events, direct publishes and the one being handed over |
| `DispatcherBatches.BatchesAreSpaced` | pkg/messaging/broker.go:142-208 | A batch with events is published no earlier than 2 seconds after its last event or 10 seconds after its first, and at least 2 seconds after the batch before; a batch without events only 87600 hours after the last served timer |
| `DispatcherBatches.BatchesAreInTime` | pkg/messaging/broker.go:142-208 | If no case takes longer than d and no due timer waits longer than d, a batch is published no earlier than, and at most 3d after, the earlier of 2 seconds after its last event and 10 seconds after its first, and no event waits longer than that; a batch without events comes 87600 hours, and at most 2d more, after the timer served before it; with d = 0 all this is exact |
| `DispatcherProgress.EventsCanBePublished` | pkg/messaging/broker.go:121-215 | After any run, some further run, in which no event arrives and the dispatcher is not held up, publishes every event that it has received |
| `DispatcherProgress.WorkerCanGoOn` | pkg/messaging/broker.go:217-245 | After any run, some further run lets the worker process another event, broadcast or direct |
| `Smi.SelectedMembers` | pkg/smi/smi.go:47-95 | A TrafficTarget is listed if and only if it lies in its destination's namespace, has rules, all of kind HTTPRouteGroup or TCPRoute, and has the name and namespace of the destination, if one with a name is given |
| `Smi.ListTrafficTargetsByOptions` | pkg/catalog/traffictarget.go:208-222 | Returns the valid and matching TrafficTargets, in order |
| `TrafficTargets.GetAllowedDirectionalServiceAccounts` | pkg/catalog/traffictarget.go:73-132 | Lists exactly the identities that valid TrafficTargets between service accounts connect with the given one in the given direction |
| `TrafficTargets.InListIff` | pkg/catalog/traffictarget.go:73-132 | With namespaces without dots, an identity is listed if and only if the account that is printed so, whatever its name, is connected |
| `TrafficTargets.DualityIff` | pkg/catalog/traffictarget.go:73-132 | With namespaces without dots, an identity is in the inbound list of another if and only if that one is in its outbound list, for all identities of the form name.namespace; for any identities, if and only if TrafficTargets connect the account printed as the source with the one read from the destination and also the account read from the source with the one printed as the destination, or connect neither |
| `TrafficTargets.DotFreeDualityIff` | pkg/catalog/traffictarget.go:73-132 | If account names have no dots either, it fails if and only if just one of the two identities has the form name.namespace and the accounts they are read as are connected |
| `TrafficTargets.DottedAccountBreaksDuality` | pkg/identity/types.go:57-67 | Every service account with a dot in its name that a TrafficTarget allows as a source is in the destination's inbound list, while its own outbound list is empty |
| `TrafficTargets.QualifiedIdentityBreaksDuality` | pkg/identity/types.go:57-67 | For every pair of accounts and every suffix, an identity with a suffix after the namespace breaks duality |
| `RouteGroups.KeyIsInjective` | pkg/catalog/inbound_traffic_policies.go:285-288 | Traffic spec names of HTTPRouteGroups in slash-free namespaces are equal only for equal namespaces and names |
| `RouteGroups.GetHTTPPathsPerRoute` | pkg/catalog/inbound_traffic_policies.go:250-283 | Builds the table that TableIsExact characterizes |
| `RouteGroups.TableIsExact` | pkg/catalog/inbound_traffic_policies.go:250-283 | A lookup finds a route match if and only if the last match of that name, in the last HTTPRouteGroup of that namespace and name that has matches, has its headers, and its path and methods, where an empty path stands for .* and an empty list of methods for * |
| `RouteGroups.RoutesFromRules` | pkg/catalog/inbound_traffic_policies.go:220-248 | Collects the routes that RoutesAreNamed characterizes |
| `RouteGroups.RoutesAreNamed` | pkg/catalog/inbound_traffic_policies.go:220-248 | A route is collected if and only if some rule names a match that is declared as it in the namespace of the TrafficTarget |
| `TrafficPolicy.NewRouteWeightedCluster` | pkg/trafficpolicy/trafficpolicy.go:25-52 | The route has the match, exactly the given clusters, and the rate limit of the first HTTP route of the setting with the same path, if there is one, and otherwise none |
| `TrafficPolicy.MergeRules` | pkg/trafficpolicy/trafficpolicy.go:142-157 | Under any aliasing of the rule objects, the merged rules allow exactly the union of the (route, principal) pairs; the first rule for each route gains exactly what the latest rules allow for that route, every other rule object stays as it is, a latest rule is appended exactly when its route is new, and routes stay distinct if the original ones were |
| `Hostnames.SlicesUnionIfSubset` | pkg/trafficpolicy/trafficpolicy.go:182-204 | The sorted union without repetitions if one list is a subset of the other, and an empty list otherwise |
| `Hostnames.LessIff` | pkg/trafficpolicy/trafficpolicy.go:182-204 | The order of the sorted union: by the first character that differs, and a proper prefix first |
| `InboundPolicies.MergePolicy` | pkg/trafficpolicy/trafficpolicy.go:126-132 | Merges if and only if the hosts are comparable and not all empty; then the target has the hosts of both and the merged rules, other policies keep their lists, and rule objects gain as MergeRules says |
| `InboundPolicies.MergeIntoEach` | pkg/trafficpolicy/trafficpolicy.go:123-133 | The view after a policy has been offered to the whole list, in closed form, for policies that occur repeatedly or share rules too; found exactly when some policy is comparable |
| `InboundPolicies.MergedGrantsIff` | pkg/trafficpolicy/trafficpolicy.go:122-138 | Exactly which (host, route, principal) triples are granted after one policy is merged: every comparable policy grants all pairs of both on all hosts of both, any other grants what it did and what reaches it through a rule shared with a comparable one, and the policy itself is appended if and only if none is comparable |
| `InboundPolicies.MergeInboundPolicies` | pkg/trafficpolicy/trafficpolicy.go:122-138 | Every step is as MergedGrantsIff describes, from the policies before to the policies after; so each policy of either list is covered, as it was, by one policy of the result, and no host and no (route, principal) pair is invented |
| `InboundCatalog.CompilationIsExact` | pkg/catalog/inbound_traffic_policies.go:163-283 | The compiled permissions contain a (route, principal) pair if and only if a valid TrafficTarget for the destination has a source with that principal under the signing or validating issuer and names a match with that path, methods and headers, and the route has the service's cluster and rate limit |
| `InboundCatalog.AllowedDownstreamPrincipals` | pkg/catalog/inbound_traffic_policies.go:195-206 | Computes the set of principals that AllowedPrincipalIff characterizes |
| `InboundCatalog.GetRoutingRulesFromTrafficTarget` | pkg/catalog/inbound_traffic_policies.go:187-218 | Returns new rule objects that allow every named route to every allowed principal and nothing else |
| `InboundCatalog.BuildInboundHTTPPolicyFromTrafficTarget` | pkg/catalog/inbound_traffic_policies.go:163-185 | Returns a new policy with one rule per route that allows the union of what the TrafficTargets allow |
| `InboundCatalog.GetInboundTrafficPolicyForUpstream` | pkg/catalog/inbound_traffic_policies.go:98-161 | In permissive mode the policy allows the principal * the path .* with any method; in SMI mode it allows exactly the authorized pairs, with one rule per route |

## Left out

- Kubernetes clients and informers, HTTP servers, JSON and YAML, metrics, logs and error codes.
- X.509, PEM and keys: a root is a value, and trust is whether the peer's issuing root is in the bundle, the trust anchor of section 6.1 of RFC 5280.
- Certificate providers: the root behind an MRC is fixed by its provider settings, and a provider either answers with a certificate of that root or fails.
- Waiting inside singleflight for an issuance in progress, and the interleaving of two issuances for one key: issuing is atomic per key.
- The webhook's simulation writes the new role into listed objects (pkg/validator/validators.go:431-433); the model simulates on a copy and says nothing about those objects after a rejected update.
- Deletion of MRCs in use: the webhook does not see deletions, and the protocol allows them for Inactive MRCs only.
- Roles other than Active, Passive and Inactive, and certificate types without a validity.
- Ticker start and stop in pkg/ticker, and the order in which tick and MRC events reach a manager beyond what `CertificateLifetime` and `RotationProtocol` allow.
- The command's prompts, sleeps and secret deletion: answers to prompts are parameters, and the waits are the protocol's condition that every manager and every proxy has caught up. Decoding a file is a parameter.
- CertificateManager.Manager.CheckAndRotate: nothing comes between the steps of this pass, while releases and requests can (pkg/certificate/manager.go:199-201); InterruptedCheck says what such a step does, and `CertificateLifetime` lets anything come between the checks.
- RotationProtocol.AuthorizationIff: leaves out identities with a slash or a leading dot, which Kubernetes does not allow, because such a misprint can coincide with a principal under another trust domain.
- DispatcherBatches.BatchesAreInTime: takes a bound on how long a case and a due timer wait as given, because Go promises none for a goroutine that is not scheduled or for a select with several ready cases.
- The dispatcher's stop signal and closed channel; which messages are broadcast (shouldPublish), which are for one proxy and which for none is an input of the dispatcher.
- The text of iptables commands, the limit of fifteen ports of a multiport match, and chains that hold rules before the commands are loaded. The comment on the admin port's rule promises an ACCEPT; the code appends the rule behind an unconditional REDIRECT, and the model follows the code. It also appends the outbound range exclusions, where the comment beside them asks for insertion.
- Parsing of ports and IP ranges; UUID parsing is a parameter; URL escaping of SPIFFE paths.
- Retry policies and host-level rate limits of inbound policies, the host names of services, and outbound, ingress and egress policies.
- The mutable principal sets that rules share: a merge replaces a rule's set by a new union, so that sets act as values. Sharing of the storage behind Go slices is not modelled.
- In the SMI compiler the kinds of destination, sources and rules are not checked beyond the validity of rules, as in the code; peer listing does check that both ends are service accounts.

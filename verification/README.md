# Kany8s: a model of its reconcilers, with proofs

Kany8s is a set of Kubernetes reconcilers: a control plane facade over three kinds of backends, the
builtin kubeadm backend, an infrastructure cluster, and the EKS plugin with its Karpenter bootstrapper,
OCM bootstrapper and kubeconfig rotator. This project models their protocol logic in Dafny and proves
what they promise, mostly for every interleaving, every failing write and every change others make in
between. `dafny verify dfyconfig.toml` checks the whole of it.

## How it is laid out

- `EventQueue.dfy`, `WatchHandshake.dfy`: the dynamic watcher's delivery path and its start handshake, as
  atomic steps of any number of calls, and the delivery path again as a class.
- `ControlPlane.dfy`, `Backends.dfy`, `OwnerReferences.dfy`: the control plane object, admission, merge patches,
  the report of a status, and the objects the facade keeps. `Facade.dfy` is its reconcile as a state machine
  with one API write per step; `FacadeBackend.dfy`, `FacadeReports.dfy` and `FacadeRefusals.dfy` say what it
  writes and reports; `FacadeSafety.dfy`, `FacadeFixedPoint.dfy` and `FacadeProgress.dfy` hold what all runs
  keep, the fixed point and the requeues, `FacadeSecret.dfy` what became of the kubeconfig;
  `FacadeReconcile.dfy` is the second half of the reconcile as it is written, on a copy that is changed and
  patched, and `OutdatedRead.dfy` holds runs in which an outdated copy does harm.
- `KubeadmController.dfy`, `BootstrapFiles.dfy`, `InfraCluster.dfy`: the kubeadm backend's controller, the
  merging and moving of bootstrap files, and the infrastructure cluster. `KubeadmProgress.dfy` says what that
  controller decides and why; `SharedBackend.dfy` runs facade and kubeadm controller over one backend,
  `BrokenPromise.dfy` says exactly what that asks of the infrastructure.
- `JsonTree.dfy`, `HelmValues.dfy`: the recursive merge as algebra, and on the heap with writes in place.
- `ManagedObjects.dfy`, `ManagedWrites.dfy`, `Ownership.dfy`: the upsert protocol under the managed-by annotation,
  what the controllers write through it, and its runs.
- `Deletion.dfy`, `DeletionPromises.dfy`, `DeletionProgress.dfy`, `CleanupFinalizer.dfy`: one deletion pass, as
  methods and as the trace of what it saw and did, why each entry is there and that none is missing, and the
  finalizer over a cluster's life.
- `EventDedupe.dfy`, `TokenRotation.dfy`, `AckIndex.dfy`, `CrdAlias.dfy`, `Endpoint.dfy`: the dedupe cache against
  its call history, the rotation schedule, the name index, the CRD text transformation, and the endpoint parser
  and printer with (`EndpointTexts.dfy`) the texts that are accepted.
- `Options.dfy`, `Text.dfy`, `Runs.dfy`: what the others share.

An informer's cache is a copy that may lag behind the store; a reconcile works on such a copy, and a patch
carries the fields in which the changed copy differs from the one it was made from. A failing or lost write,
and a crash, are one step that drops the reconcile.

## What others are trusted with

- Nobody but the controllers writes `spec.controlPlaneEndpoint`, status, the managed-by annotations, the cleanup
  finalizer, or the region and EKS name annotations once they are there. Spec edits pass the webhook.
- The infrastructure behind the kubeadm backend gives endpoints that can be read from a URL, or none with a port;
  `BrokenPromise.PromiseIsExact` shows that this is what it takes.
- An informer's cache lags and never goes back.
- One reconcile at a time for each object, as the controller runtime's queue provides.

## Found on the way

- Endpoint printing and parsing are inverse only on hosts that stand for themselves: a host stored with brackets
  comes back without them, and a percent sign is decoded or refused (`Endpoint.RoundTrip`).
- A reconcile that starts from an outdated copy can leave a ready control plane with an old failure
  (`ControlPlane.ReadyPatchClearsFailure`, `OutdatedRead.ProgramKeepsFailure`), and an infrastructure
  cluster with Ready=True beside provisioned=false and one (`InfraCluster.StoredAgrees`,
  `InfraCluster.FailureKeptForExample`); the next reconcile from a current copy repairs it.
- Such a reconcile can also end without a requeue while the stored control plane is not ready, until something else
  wakes it (`OutdatedRead.ProgramIsStuck`; `FacadeProgress.RequeueUnlessSettled` says exactly when).
- The kubeadm backend copies a host that no URL can hold and reports itself initialized; the facade follows the
  report while it refuses the endpoint. An infrastructure that changes its port to a multiple of 2^32 has the same
  effect (`BrokenPromise.PromiseIsExact`, `BrokenPromise.InitializedWithoutEndpoint`).
- A deletion pass that reads the cluster as it was before its annotations can take the cleanup finalizer without
  looking for nodes (`CleanupFinalizer.OutdatedPassLooksAtNothing`; `CleanupFinalizer.NothingIsLeftBehind` says
  exactly when it looks).
- The suspension of a Flux object can change one that someone else has made under its name since
  (`Ownership.RecreatedObjectIsSuspended`).
- The repair of the final newline in the CRD script never fires (`CrdAlias.SameNewline`).
- The CRD script appends a copy each time when a sibling key stands between the list-item header and the name
  line (`CrdAlias.ProcessedTwice`, with a file in `CrdAlias.EachRunAppends`); the script's own description says it is
  idempotent.

## Model

| member | source | states |
|---|---|---|
| `EventQueue.NoEventLost` | internal/dynamicwatch/watcher.go:189-275 | In every interleaving of enqueue calls, the flusher and the consumer: once an enqueue has returned, every later state has an event for its object sent at or after the call began, or still has the object pending. |
| `EventQueue.ReturnedForever` | internal/dynamicwatch/watcher.go:189-214 | A call that has returned stays as it is, and what was sent is never taken back. |
| `EventQueue.OnlyEnqueuedObjectsAreSent` | internal/dynamicwatch/watcher.go:189-275 | Everything on the channel was handed to some enqueue call, and the channel never holds more than its capacity. |
| `EventQueue.NoEventSentTwice` | internal/dynamicwatch/watcher.go:189-275 | No enqueued copy is ever sent twice: each enqueue call contributes at most one event. |
| `EventQueue.PlainDeleteLosesAnEvent` | internal/dynamicwatch/watcher.go:265-275 | Why the flusher compares before deleting: the program's own steps reach a state from which deleting without the comparison leaves a returned call neither sent nor pending. |
| `EventQueue.PendingKeyInjective` | internal/dynamicwatch/watcher.go:298-301 | Two objects whose group, version, kind and namespace hold no slash share a pending key only when they are the same object. |
| `EventQueue.PendingKeyCollidesWithSlashes` | internal/dynamicwatch/watcher.go:298-301 | The hypothesis is needed: with a slash in kind or namespace, which the API server does not admit, two different objects would share a key. |
| `EventQueue.Watcher.Enqueue` | internal/dynamicwatch/watcher.go:189-229 | An object without a namespace is ignored; otherwise it is sent when there is room and stored under its key, by a fresh reference, when there is not. |
| `EventQueue.Watcher.DeleteIfCurrent` | internal/dynamicwatch/watcher.go:265-275 | The entry goes only if it is still the reference that was sent. |
| `EventQueue.Watcher.FlushPending` | internal/dynamicwatch/watcher.go:247-277 | A flush ends with an empty map or a full channel; exactly the entries that left the map were sent, each once. |
| `WatchHandshake.OneHandlerOneFlusher` | internal/dynamicwatch/watcher.go:77-145 | For every interleaving of Start and any number of EnsureWatch calls a resource has one handler exactly when it is registered, never more, and there is at most one flusher. |
| `WatchHandshake.SettledMeansStarted` | internal/dynamicwatch/watcher.go:77-145 | When no call has a step left to take, a started watcher has started every registered informer and one flusher, whichever critical section came first; before Start nothing is started and nobody is blocked; which resources are registered is in RegisteredExactly. |
| `WatchHandshake.RegisteredExactly` | internal/dynamicwatch/watcher.go:102-145 | In every run a resource is registered exactly when some EnsureWatch for it had its handler accepted in its critical section, and the watcher has its stop channel exactly when some Start took the lock. |
| `WatchHandshake.EnsuredIsWatched` | internal/dynamicwatch/watcher.go:77-145 | From an accepted EnsureWatch on its resource has one handler for good, and whenever no start step is outstanding after a Start its informer runs. |
| `JsonTree.MergeByPath` | internal/controller/plugin/eks/karpenter_bootstrapper_controller.go:2055-2072 | What the recursive merge means at every path: the override wins except where both sides are maps, the base shows through elsewhere, nothing else appears. |
| `JsonTree.MergeEmpty` | internal/controller/plugin/eks/karpenter_bootstrapper_controller.go:2055-2072 | The empty map is neutral on both sides. |
| `JsonTree.MergeSelf` | internal/controller/plugin/eks/karpenter_bootstrapper_controller.go:2055-2072 | Merging a value with itself gives it back. |
| `JsonTree.MergeTwice` | internal/controller/plugin/eks/karpenter_bootstrapper_controller.go:2055-2072 | Merging the same override a second time changes nothing. |
| `JsonTree.MergeAbsorbed` | internal/controller/plugin/eks/karpenter_bootstrapper_controller.go:2055-2072 | The override is the whole result exactly when it has a say at every place of the base. |
| `JsonTree.MergeAssociative` | internal/controller/plugin/eks/karpenter_bootstrapper_controller.go:2055-2072 | The merge is associative exactly when no map, non-map, map clash occurs along some path. |
| `JsonTree.PutGet` | internal/controller/plugin/eks/karpenter_bootstrapper_controller.go:2074-2091 | A value written at a path through freshly ensured maps is read back. |
| `JsonTree.PutFrame` | internal/controller/plugin/eks/karpenter_bootstrapper_controller.go:2074-2091 | Such a write is invisible on every path that is neither a prefix nor an extension of it. |
| `HelmValues.DeepCopy` | internal/controller/plugin/eks/karpenter_bootstrapper_controller.go:2039-2053 | The copy means the same and consists of fresh map nodes only. |
| `HelmValues.DeepMerge` | internal/controller/plugin/eks/karpenter_bootstrapper_controller.go:2055-2072 | The heap merge computes the merge of the two trees and shares no map node with either input, so later writes in place cannot reach them. |
| `HelmValues.EnsureNestedMap` | internal/controller/plugin/eks/karpenter_bootstrapper_controller.go:2074-2091 | A map at the key is kept by reference; anything else, a scalar or null included, is replaced by a fresh empty map; a blank key gives the root. |
| `HelmValues.AssignAt` | internal/controller/plugin/eks/karpenter_bootstrapper_controller.go:1164-1174 | A write through ensured nested maps is the write at that path on the tree. |
| `HelmValues.ResolveHelmValues` | internal/controller/plugin/eks/karpenter_bootstrapper_controller.go:1136-1176 | Fails exactly on an override that does not parse; otherwise the heap holds the tree of defaults, feature gates and queue, merged with the override, with the owned keys written last, of which OwnedKeysWin, BaseIsExpected and ResolvedIsExpected give every text. |
| `HelmValues.OwnedKeysWin` | internal/controller/plugin/eks/karpenter_bootstrapper_controller.go:1136-1176 | For every gate map and every override, also one that replaces settings, serviceAccount or annotations by a scalar or null, the result has the bootstrapper's cluster name, endpoint and role. |
| `HelmValues.BaseIsExpected` | internal/controller/plugin/eks/karpenter_bootstrapper_controller.go:1136-1162 | The values without an override have exactly these texts and no others: the defaults, the owned keys, settings.featureGates.<name> as "true" or "false" as the gate is on or off for every name that is not blank, and settings.interruptionQueue as the trimmed queue when that is not blank. |
| `HelmValues.ResolvedIsExpected` | internal/controller/plugin/eks/karpenter_bootstrapper_controller.go:1136-1176 | With an override, at every path apart from the owned keys: the override's text where it has a say, that expected text where it lets the base through, nothing elsewhere. |
| `HelmValues.OtherKeysAreThePlainMerge` | internal/controller/plugin/eks/karpenter_bootstrapper_controller.go:1136-1176 | Every path not at, above or below an owned key reads as in the plain merge. |
| `HelmValues.AgreeingOverrideIsThePlainMerge` | internal/controller/plugin/eks/karpenter_bootstrapper_controller.go:1136-1176 | An override under which the plain merge has the owned values already gives exactly the plain merge. |
| `EventDedupe.EventStateCache.ShouldEmit` | internal/controller/plugin/eks/event_dedupe.go:34-59 | A suppressed call always repeats the latest emission about its object within the time to live; without a size bound and with a clock that never goes back that is exactly when it is suppressed; the bound holds afterwards; with an advancing clock the new entry survives. |
| `EventDedupe.SuppressedExactlyWhenAlreadyTold` | internal/controller/plugin/eks/event_dedupe.go:34-59 | In a history that decides that way, a call is suppressed exactly when the same notice about the same object was emitted within the time to live with no other emission about the object in between. |
| `EventDedupe.EventStateCache.EnforceSize` | internal/controller/plugin/eks/event_dedupe.go:86-105 | Deletes exactly the excess, and no survivor is older than a deleted entry. |
| `EventDedupe.EventStateCache.Compact` | internal/controller/plugin/eks/event_dedupe.go:75-84 | Keeps exactly the entries that are not expired. |
| `EventDedupe.NewestSurvives` | internal/controller/plugin/eks/event_dedupe.go:86-105 | An entry strictly newer than all others is not the one evicted. |
| `EventDedupe.KeysAndTextsAreInjective` | internal/controller/plugin/eks/event_dedupe.go:34-59 | Keys and signatures tell objects and notices apart when controller, namespace, type and reason are plain tokens. |
| `ManagedObjects.WrittenObjectsAreMarked` | internal/controller/plugin/eks/karpenter_bootstrapper_controller.go:2093-2170 | Every object an upsert leaves carries the manager's value, the cluster label and the owner reference, and no mutation-error marker. |
| `ManagedObjects.UpsertStoresTheWrites` | internal/controller/plugin/eks/karpenter_bootstrapper_controller.go:2093-2170 | After an upsert that does not fail every path written looks up to its value in the stored fields, and every path apart from all of them reads as before. |
| `ManagedObjects.UpsertKeepsMetadata` | internal/controller/plugin/eks/karpenter_bootstrapper_controller.go:2177-2211 | The mutation's annotations are stored, every other annotation and label is as before, and the owner's reference stands where one to the same object was, or last. |
| `ManagedObjects.OutcomeSaysWhatHappened` | internal/controller/plugin/eks/karpenter_bootstrapper_controller.go:2093-2170 | Created needs that nothing was there, Updated that something changed, and with any other outcome the store is as it was. |
| `ManagedObjects.ForeignObjectsNeedTakeover` | internal/controller/plugin/eks/ocm_awsirsa_bootstrapper_controller.go:259-336 | An object another manager or nobody manages is refused exactly when takeover is off, and changed only on takeover. |
| `ManagedObjects.FirstErrorIsReported` | internal/controller/plugin/eks/karpenter_bootstrapper_controller.go:2225-2271 | An upsert fails exactly when some field write fails, with the text of the first failure, which names the longest prefix of its path that holds no map, and stores nothing. |
| `ManagedObjects.MarkerNamesFirstFailure` | internal/controller/plugin/eks/karpenter_bootstrapper_controller.go:2233-2254 | The marker is set exactly when a write failed and names the first failure, whatever is written after it. |
| `ManagedObjects.UpsertTwiceIsUnchanged` | internal/controller/plugin/eks/karpenter_bootstrapper_controller.go:2093-2170 | A repeated upsert performs no update, for writes of which none lies at, above or below another; what the first one stored is in UpsertStoresTheWrites. |
| `ManagedWrites.ManagedObjectsSettle` | internal/controller/plugin/eks/karpenter_bootstrapper_controller.go:1245-1357 | Every object the controllers manage settles: a second upsert with the same values performs no update, whatever was stored before; what it then holds is in ManagedObjectsHoldTheirFields. |
| `ManagedWrites.ManagedObjectsHoldTheirFields` | internal/controller/plugin/eks/karpenter_bootstrapper_controller.go:1245-1357 | After an upsert that does not fail every managed object holds below spec, or data, each field of its kind with the value given, whatever was stored before. |
| `ManagedWrites.ManagedByItsController` | internal/controller/plugin/eks/karpenter_bootstrapper_controller.go:2172-2189 | It carries the cluster's name and the value of the controller that writes objects of its kind. |
| `ManagedWrites.WritesAreIndependent` | internal/controller/plugin/eks/ocm_awsirsa_bootstrapper_controller.go:241-257 | No mutate function writes at, above or below a path it writes elsewhere. |
| `ManagedWrites.ManagedObjectsFail` | internal/controller/plugin/eks/karpenter_bootstrapper_controller.go:2225-2271 | An upsert of a managed object over one it may write fails exactly when spec, or data, is stored as something other than a map, and says so. |
| `Ownership.OneWriterForLife` | internal/controller/plugin/eks/rotator_controller.go:204-285 | In every run of the three controllers' upserts and the bootstrapper's suspensions, with takeover off, every object is written by one manager only and carries that manager's value as long as it exists, exactly when every suspension reaches an object that carries the bootstrapper's value. |
| `Ownership.SameObjectIsStillOurs` | internal/controller/plugin/eks/karpenter_bootstrapper_controller.go:775-803 | However old the copy a suspension was decided on, it reaches such an object when the object at the key is still the one that was read. |
| `Ownership.RecreatedObjectIsSuspended` | internal/controller/plugin/eks/karpenter_bootstrapper_controller.go:775-803 | A run in which it is not: the object is deleted and made again by someone else, and the patch, which carries no resource version, changes that one. |
| `Ownership.SuspensionIsStored` | internal/controller/plugin/eks/karpenter_bootstrapper_controller.go:775-803 | A suspension is decided on a version the bootstrapper manages and that is not suspended; it leaves what is under the key suspended, all else of it and every other object as they were. |
| `Ownership.UpsertIsStored` | internal/controller/plugin/eks/karpenter_bootstrapper_controller.go:2093-2170 | In every run an upsert that goes through stores what its protocol says under its key, as a new object only when there was none, and nothing elsewhere; one that fails stores nothing. |
| `Ownership.MarkerIsNeverStored` | internal/controller/plugin/eks/karpenter_bootstrapper_controller.go:2093-2170 | No stored object of any run holds the mutation-error marker. |
| `Ownership.ForeignUpsertChangesNothing` | internal/controller/plugin/eks/ocm_awsirsa_bootstrapper_controller.go:259-336 | An upsert by a controller whose value the object does not carry changes nothing. |
| `Ownership.TakeoverBreaksOneWriter` | internal/controller/plugin/eks/rotator_controller.go:229-254 | With takeover on, two managers write one object. |
| `Ownership.ApiStore.UpsertManaged` | internal/controller/plugin/eks/karpenter_bootstrapper_controller.go:2093-2170 | The upsert as it is written, with the API call that may fail at its end, stores what the protocol says, so what UpsertStoresTheWrites and UpsertKeepsMetadata say, and nothing on failure. |
| `Ownership.ApiStore.ApplyWrites` | internal/controller/plugin/eks/karpenter_bootstrapper_controller.go:2225-2254 | The setters applied one after the other, each skipped in effect after the first failure. |
| `Endpoint.RoundTrip` | internal/controller/kany8scontrolplane_controller.go:570-575 | Printing an endpoint with a host and a real port and parsing it gives it back exactly when every character of the host stands for itself and it has no bracket. |
| `Endpoint.Parse` | internal/endpoint/parse.go:13-76 | Every accepted text yields a non-empty host and a port from 1 to 65535. |
| `EndpointTexts.AcceptedTexts` | internal/endpoint/parse.go:13-76 | A text is accepted, with a given endpoint, exactly when trimmed and with https:// before it unless it has a scheme separator it is https in any case, an authority whose host and port can be read, at most a slash for a path, and an empty query and fragment. |
| `EndpointTexts.AcceptedAuthorities` | internal/endpoint/parse.go:54-73 | An authority is accepted exactly when it is a host that can be decoded, or a literal in brackets that the URI library reads, alone or with a port from 1 to 65535 after a colon; it reads as these, with 443 for no port. |
| `Text.TrimSpaceParts` | internal/endpoint/parse.go:14 | Trimming drops only white space, at both ends, and all of it there. |
| `Endpoint.DefaultPort` | internal/endpoint/parse.go:62-73 | A plain host without a port or outer white space is parsed as itself with the port 443. |
| `Endpoint.DefaultPortWithScheme` | internal/endpoint/parse.go:17-73 | The same with https:// before it. |
| `Endpoint.PrintedParses` | internal/endpoint/parse.go:13-76 | A printed endpoint parses at all exactly when its port is real and its host holds no delimiter and can be decoded, between brackets or without. |
| `Endpoint.BracketedAuthority` | internal/endpoint/parse.go:54-73 | With brackets the authority is accepted exactly when what follows the last opening bracket is a literal the URI library reads, directly followed by the port, and then host and port are the literal and that port; what stands before the bracket is dropped. |
| `Endpoint.PrintedPortIsKept` | internal/endpoint/parse.go:62-73 | Every printed endpoint that parses keeps its port, so a port above 65535 never parses. |
| `Endpoint.UnbracketedAuthority` | internal/endpoint/parse.go:54-73 | The authority of a host and port reads as the percent-decoded host and the port; user information, an undecodable or empty host and a bad port are refused. |
| `Endpoint.DecimalRoundTrip` | internal/endpoint/parse.go:62-71 | A port printed in decimal reads back as the same number. |
| `OwnerReferences.EnsureClusterOwnerReference` | internal/controller/kany8scontrolplane_controller.go:523-544 | The slice is refreshed in place at the first matching reference or extended by one, with no other change. |
| `OwnerReferences.FacadeOwnersTwice` | internal/controller/kany8scontrolplane_controller.go:509-544 | Setting controller and Cluster references a second time succeeds and changes nothing, and the control plane stays among the owners. |
| `OwnerReferences.OwnersAreSet` | internal/controller/kany8scontrolplane_controller.go:509-544 | The references are refused exactly when something else controls the object; otherwise the first one to the same object, and the first to the Cluster, are replaced where they stand or appended, and all others stay as and where they are. |
| `FacadeBackend.ReferencesAre` | internal/controller/kany8scontrolplane_controller.go:527-532 | The reference to the control plane controls the object and blocks its deletion, that to the Cluster does neither; both name their object by kind, name and uid. |
| `OwnerReferences.UpsertKeepsOthers` | internal/controller/kany8scontrolplane_controller.go:208-223 | References to other objects are neither added nor lost. |
| `ControlPlane.BackendIsConstant` | api/v1alpha1/kany8scontrolplane_webhook.go:58-92 | Through every admitted history exactly one backend is selected and it is the same one. |
| `ControlPlane.AdmittedUpdates` | api/v1alpha1/kany8scontrolplane_webhook.go:74-92 | An update is admitted exactly when one backend is selected afterwards and none or the same was selected before. |
| `ControlPlane.ReportHasShape` | internal/controller/kany8scontrolplane_controller.go:817-885 | A report leaves Ready and Creating consistent, a ready control plane without failure, and reporting the same again changes nothing. |
| `ControlPlane.ReportTells` | internal/controller/kany8scontrolplane_controller.go:817-885 | Ready says whether the control plane is ready, with the reason and message that were read or the report's own; failure reason and message are set exactly when it is not ready and the status or the reason is terminal; the version is the one asked for when it is ready; all other conditions stay. |
| `ControlPlane.TerminalReasons` | internal/controller/kany8scontrolplane_controller.go:887-894 | Which reasons are terminal by themselves. |
| `ControlPlane.ReadyPatchClearsFailure` | internal/controller/kany8scontrolplane_controller.go:817-885 | When a ready report reaches the store from a possibly outdated copy, the stored failure is gone exactly when the copy showed each stored failure field or there was none. |
| `ControlPlane.OutdatedCopyKeepsFailure` | internal/controller/kany8scontrolplane_controller.go:817-885 | Values for which an outdated copy leaves a ready control plane with a failure. |
| `OutdatedRead.OutdatedReadKeepsFailure` | internal/controller/kany8scontrolplane_controller.go:817-885 | A run with one outdated read reaches a ready control plane with a failure: an earlier Ready=True was read, after which a failure was stored. |
| `OutdatedRead.ProgramKeepsFailure` | internal/controller/kany8scontrolplane_controller.go:817-885 | The program itself, with its own parser and texts, has such a run. |
| `OutdatedRead.OutdatedReadIsStuck` | internal/controller/kany8scontrolplane_controller.go:323-333 | A run with one outdated read completes without a requeue while Ready=False is stored and the spec is valid: the report equals the old copy, so the patch is empty. |
| `OutdatedRead.ProgramIsStuck` | internal/controller/kany8scontrolplane_controller.go:323-333 | The program itself, with its own parser and texts, has such a run. |
| `ControlPlane.Copy.ReconcileConditionsAndFailure` | internal/controller/kany8scontrolplane_controller.go:817-885 | The fields changed one by one and then patched give the report's merge patch, and the copy is the stored object afterwards. |
| `ControlPlane.Copy.ReconcileKubeconfigSecretCondition` | internal/controller/kany8scontrolplane_controller.go:781-815 | The condition is patched; an event is due exactly when the copy did not say so already. |
| `ControlPlane.Copy.SetEndpoint` | internal/controller/kany8scontrolplane_controller.go:284-291 | Host and port are patched each when they differ from the copy. |
| `ControlPlane.Copy.SetInitialized` | internal/controller/kany8scontrolplane_controller.go:297-305 | Initialization is patched once; an initialized copy patches nothing. |
| `Backends.UpsertInstanceTwice` | internal/controller/kany8scontrolplane_controller.go:208-223 | A second CreateOrUpdate of a backend instance finds nothing to update, and the control plane owns it; what is stored is in FacadeBackend.BackendCarriesTheSpec. |
| `Backends.UpsertKubeadmTwice` | internal/controller/kany8scontrolplane_controller.go:395-417 | The same for the kubeadm backend. |
| `Backends.UpsertSecretTwice` | internal/controller/kany8scontrolplane_controller.go:754-773 | The same for the target kubeconfig secret. |
| `Backends.SpecsCarryTheDocument` | internal/controller/kany8scontrolplane_controller.go:597-621 | The user's document reaches the spec that is built whole but for the version and the cluster identity keys. |
| `FacadeBackend.BackendCarriesTheSpec` | internal/controller/kany8scontrolplane_controller.go:159-239 | In every run a reconcile that gets past its backend leaves the one its copy selects as that copy asks: the version, every user key that is not owned as in the document, with an owner the cluster's identity and label, for the builtin backend version, replicas, template and config; the object's own status and all other objects stay. |
| `FacadeBackend.BackendIsReconciled` | internal/controller/kany8scontrolplane_controller.go:369-507 | The same for the step alone, with what the reconcile goes on with: status, endpoint and initialization as they were read there, a failure of the builtin backend going before its condition. |
| `FacadeBackend.InstanceIsUpserted` | internal/controller/kany8scontrolplane_controller.go:208-223 | One CreateOrUpdate fails exactly when something else controls the instance; otherwise it has the spec, the owner's and the Cluster's references, the Cluster's label, and the status it had. |
| `FacadeReports.EndpointIsStored` | internal/controller/kany8scontrolplane_controller.go:276-295 | In every run the endpoint a reconcile read is stored as it is parsed, host and port each exactly when the copy had it otherwise or the store has it; one that is empty or cannot be read stores nothing. |
| `FacadeReports.ReportsWhatWasRead` | internal/controller/kany8scontrolplane_controller.go:274-321 | In every run a control plane is told ready exactly when its backend says so with an endpoint that can be read and the kubeconfig it refers to could be copied; the reason and message, initialization and the requeue follow from what was read. |
| `FacadeReports.ReportIsStored` | internal/controller/kany8scontrolplane_controller.go:817-885 | In every run each field of the report is stored exactly when the copy had it otherwise or the store has it so; endpoint and initialization stay, and an event that is due is told once. |
| `FacadeRefusals.SpecIsRefused` | internal/controller/kany8scontrolplane_controller.go:155-239 | In every run a reconcile stops at its backend only when something is wrong with the spec or the definition as it read them, the first thing first: it has written nothing and goes on to report that, with no requeue where an edit is waited for and an event unless Ready says it already. |
| `FacadeRefusals.NothingWrongBeyond` | internal/controller/kany8scontrolplane_controller.go:155-239 | One that gets past its backend has a spec with nothing wrong. |
| `FacadeRefusals.DefinitionIsTold` | internal/controller/kany8scontrolplane_controller.go:932-962 | What is wrong with the definition is stored in its condition, only over the version that was read, told once, and the reconcile runs again in 30 seconds. |
| `FacadeRefusals.KubeconfigIsWithheld` | internal/controller/kany8scontrolplane_controller.go:644-747 | In every run a reconcile that does not copy the kubeconfig tells why: owner, its namespace, the source's namespace, the source, its key, or what it holds, in that order. |
| `FacadeRefusals.WithheldIsTold` | internal/controller/kany8scontrolplane_controller.go:781-815 | The kubeconfig's condition changes nothing else, and an event tells it unless the copy said it already. |
| `FacadeSafety.InitializedHasEndpoint` | internal/controller/kany8scontrolplane_controller.go:274-305 | In every reachable state, with any write failing and outdated reads, an initialized control plane has a stored endpoint with a host and a port from 1 to 65535, for all three backends. |
| `SharedBackend.InitializedHasEndpointTogether` | internal/controller/kany8scontrolplane_controller.go:274-305 | The facade and the kubeadm backend's controller over one stored backend, in every interleaving, the facade also reading any older version of the backend when it finds nothing to update: an initialized control plane has a stored endpoint, asking nothing but either promise of the infrastructure, for a facade that parses as the program does. |
| `BrokenPromise.PromiseIsExact` | internal/controller/controlplane/kany8skubeadmcontrolplane_controller.go:144-179 | No run of the two controllers initializes the control plane without a valid endpoint exactly when, of the endpoints the infrastructure may report and the API server admits, all can be read from a URL and have a port, or none has a port after the conversion to 32 bits. |
| `BrokenPromise.ProgramPromiseIsExact` | internal/controller/controlplane/kany8skubeadmcontrolplane_controller.go:144-179 | The same for the program's own parser and texts, with no further hypothesis. |
| `BrokenPromise.InitializedWithoutEndpoint` | internal/controller/controlplane/kany8skubeadmcontrolplane_controller.go:159-179 | So with an infrastructure that may report a host ending in a slash some run initializes the control plane without a valid endpoint: it is copied, reported as initialized and refused by the facade's parser. |
| `FacadeSafety.NeverTakenBack` | internal/controller/kany8scontrolplane_controller.go:274-305 | From any state to any later one initialization never reverts and a stored host or real port is never cleared. |
| `FacadeSafety.ConditionsHaveShape` | internal/controller/kany8scontrolplane_controller.go:817-885 | In every reachable state Ready=True excludes Creating and Ready=False comes with Creating=True of the same reason and message. |
| `FacadeSafety.BackendForLife` | internal/controller/kany8scontrolplane_controller.go:348-367 | Through all writes and admitted edits the stored object selects the backend it was admitted with. |
| `FacadeSafety.ReadyHasNoFailure` | internal/controller/kany8scontrolplane_controller.go:835-882 | In every run whose reconciles start from the stored status a ready control plane carries no failure reason or message. |
| `FacadeFixedPoint.SecondReconcileChangesNothing` | internal/controller/kany8scontrolplane_controller.go:135-334 | A second reconcile after a completed one, with nothing changed in between, leaves owner references, specs, secret, endpoint, status and events as they are and returns the same requeue. |
| `FacadeFixedPoint.ProgramSecondReconcile` | internal/controller/kany8scontrolplane_controller.go:135-334 | The same for the repository's own parser and texts. |
| `FacadeFixedPoint.FinishKept` | internal/controller/kany8scontrolplane_controller.go:135-334 | What the rest of a reconcile leaves alone, stage by stage. |
| `FacadeProgress.RequeueUnlessSettled` | internal/controller/kany8scontrolplane_controller.go:323-333 | In every run, with outdated copies and other actors between the writes, the requeue of a completed reconcile is right about the store (none exactly when the stored control plane is ready with the watch ensured, or the spec as read was refused) exactly when its last patch carries the conditions or the store says what was told; only a reconcile that reached its backend and has its watch depends on that. |
| `FacadeProgress.NeverStuck` | internal/controller/kany8scontrolplane_controller.go:323-333 | In every run whose reconciles start from the stored status, with other actors between their writes, a completed reconcile returns no requeue exactly when the stored control plane is settled in that sense. |
| `FacadeProgress.RequeueUnlessTold` | internal/controller/kany8scontrolplane_controller.go:323-333 | In every run a completed reconcile returns 0, 15 or 30 seconds, and no requeue exactly when it told that the control plane is ready and has the watch ensured, or that the spec as it read it is invalid. |
| `FacadeProgress.ToldIsStored` | internal/controller/kany8scontrolplane_controller.go:817-885 | The last write leaves Ready as it was told exactly when the patch carries the conditions or Ready was stored so. |
| `FacadeProgress.UninterruptedRequeue` | internal/controller/kany8scontrolplane_controller.go:135-334 | A reconcile from the stored object that nothing interrupts returns no requeue exactly when it left the control plane ready with the watch ensured or its spec is refused. |
| `FacadeProgress.RefusedSpecs` | internal/controller/kany8scontrolplane_controller.go:202-206 | Which specs are recorded as invalid. |
| `FacadeSecret.KubeconfigIsCopied` | internal/controller/kany8scontrolplane_controller.go:644-779 | When the backend refers to a kubeconfig, a reconcile that works on the stored object and that nothing interrupts leaves the condition True exactly when owner and source can be used, and then the Cluster's secret holds the source's kubeconfig and no other secret changed; otherwise no secret is touched and the control plane is not ready. |
| `FacadeSecret.KubeconfigIsTold` | internal/controller/kany8scontrolplane_controller.go:781-815 | In every run a reconcile tells that the kubeconfig was copied exactly when owner and source could be used as it read them, and the store has the condition as told exactly when the copy had it otherwise or the store has it so. |
| `FacadeSecret.KubeconfigIsWritten` | internal/controller/kany8scontrolplane_controller.go:644-779 | In every run a secret is written only where owner and source could be used as they were read, and then the Cluster's secret holds what was read and no other secret changes. |
| `FacadeSecret.OnlyThereWritten` | internal/controller/kany8scontrolplane_controller.go:135-334 | No other step of a reconcile touches a secret. |
| `FacadeSecret.ReadyNeedsKubeconfig` | internal/controller/kany8scontrolplane_controller.go:274-333 | In every run a control plane whose backend refers to a kubeconfig is told ready only when it could be copied. |
| `FacadeReconcile.ReconcileStatus` | internal/controller/kany8scontrolplane_controller.go:274-333 | The second half of Reconcile as it is written, on a copy patched step by step, stores and returns what the state machine does. |
| `KubeadmController.KRunInv` | internal/controller/controlplane/kany8skubeadmcontrolplane_controller.go:159-246 | In every reachable state of the kubeadm controller Ready=True implies initialized, initialized implies a stored endpoint as promised by the infrastructure, no failure is reported, and nothing is taken back; when it initializes is in KubeadmProgress.InitializedOnlyWhenSeen. |
| `KubeadmProgress.InitializedOnlyWhenSeen` | internal/controller/controlplane/kany8skubeadmcontrolplane_controller.go:205-246 | In every run the backend becomes initialized only in a pass that has an endpoint and sees the connection probe succeed, or a ready machine. |
| `KubeadmProgress.ReportIsStored` | internal/controller/controlplane/kany8skubeadmcontrolplane_controller.go:205-270 | In every run a pass that read to its end stores Ready=True exactly when it has an endpoint and saw an initialized copy, the probe succeed or a ready machine, otherwise the reason that is missing; a ready backend is initialized, and it asks for another run in 15 seconds exactly when it is not. |
| `KubeadmProgress.EndpointIsStored` | internal/controller/controlplane/kany8skubeadmcontrolplane_controller.go:148-173 | A pass that goes on from the endpoint has stored the infrastructure's host and its port converted to 32 bits, within the bounds of the CustomResourceDefinition, whatever was stored before. |
| `KubeadmProgress.CompletedEarly` | internal/controller/controlplane/kany8skubeadmcontrolplane_controller.go:94-203 | A pass that completed before its report asks for another run in 15 seconds, and its owner, its infrastructure or the objects it creates are missing. |
| `KubeadmProgress.GoesOn` | internal/controller/controlplane/kany8skubeadmcontrolplane_controller.go:94-203 | A pass gets past its owner and the objects it creates only when they are there, and skips to the report only when the infrastructure has no endpoint yet. |
| `KubeadmProgress.OwnerIsTold` | internal/controller/controlplane/kany8skubeadmcontrolplane_controller.go:101-128 | Whether the owner was resolved is told in a condition of its own, stored exactly when the copy had it otherwise or the store has it so. |
| `KubeadmController.CopiedPartsOk` | config/crd/bases/controlplane.cluster.x-k8s.io_kany8skubeadmcontrolplanes.yaml:45-62 | A copied endpoint is within the bounds of the CustomResourceDefinition and as the infrastructure promises, or the patch is refused. |
| `KubeadmController.PromiseIsKept` | internal/controller/kany8scontrolplane_controller.go:546-568 | Every backend the kubeadm controller leaves keeps that promise, and its endpoint is read back as its own exactly when the host stands for itself. |
| `KubeadmController.PromiseIff` | internal/controller/kany8scontrolplane_controller.go:546-568 | The facade can rely on what a backend reports exactly when an initialized one has a real port and a host that can be read back from a URL. |
| `KubeadmController.ReadyBackendMakesReadyFacade` | internal/controller/kany8scontrolplane_controller.go:546-568 | In any reachable state of the kubeadm backend the facade reads no terminal failure, and reads it as ready exactly when its condition says so, then initialized and with an endpoint that parses to the backend's own. |
| `BootstrapFiles.MergeBootstrapFiles` | internal/controller/controlplane/kany8skubeadmcontrolplane_controller.go:404-426 | The loops compute the files that stay, in order, followed by the injected ones. |
| `BootstrapFiles.MergedHolds` | internal/controller/controlplane/kany8skubeadmcontrolplane_controller.go:404-426 | The result holds the injected files and exactly the base files no injected path overrides; distinct paths stay distinct. |
| `BootstrapFiles.MergedInOrder` | internal/controller/controlplane/kany8skubeadmcontrolplane_controller.go:404-426 | The base files no injected path overrides, each as often as it was there and in order, followed by the injected ones. |
| `BootstrapFiles.MergedTwice` | internal/controller/controlplane/kany8skubeadmcontrolplane_controller.go:404-426 | Merging again changes nothing exactly when no injected path is empty. |
| `BootstrapFiles.RewriteKubeadmCertificatesDir` | internal/controller/controlplane/kany8skubeadmcontrolplane_controller.go:428-445 | Each file is moved or kept with its content; none moves to a blank directory or the same one, and none from outside the default directory. |
| `BootstrapFiles.MovedKeepsSuffix` | internal/controller/controlplane/kany8skubeadmcontrolplane_controller.go:436-444 | Files under the default directory keep what follows it and stay apart. |
| `BootstrapFiles.MovedBack` | internal/controller/controlplane/kany8skubeadmcontrolplane_controller.go:436-444 | Moving back restores them when neither directory ends in a slash. |
| `CrdAlias.FindAlphaBlock` | hack/add-v1beta2-alias.py:48-78 | The index loops find the span. |
| `CrdAlias.SpanIsTheBlock` | hack/add-v1beta2-alias.py:48-78 | The span is the one block from the last list-item header up to the first v1alpha1 name line to the next header or sibling key; there is none exactly when there is no such name line or no header before it. |
| `CrdAlias.Process` | hack/add-v1beta2-alias.py:95-116 | The file is written exactly when it has no v1beta2 name line and a span; the repair of the final newline never fires. |
| `CrdAlias.SameNewline` | hack/add-v1beta2-alias.py:111-113 | The new text ends with a newline exactly when the old one does. |
| `CrdAlias.ProcessedTwice` | hack/add-v1beta2-alias.py:95-116 | Processing again changes nothing exactly when the file had a v1beta2 name line, has no span, or the span holds the name line; otherwise each time appends another copy. |
| `CrdAlias.EachRunAppends` | hack/add-v1beta2-alias.py:48-116 | A file on which it is not idempotent: the lines '  - a', '  b: c' and '    name: v1alpha1' get another copy of the item on every run. |
| `CrdAlias.InsertionCanBeUndone` | hack/add-v1beta2-alias.py:108-110 | Deleting the inserted lines gives back the original, and they are the alias of the block. |
| `CrdAlias.OneStoredVersion` | hack/add-v1beta2-alias.py:81-92 | The alias differs only on name and storage lines, and the number of lines that say a version is stored stays the same. |
| `CrdAlias.LinesBecome` | hack/add-v1beta2-alias.py:81-92 | What each line of the block becomes: a name line the v1beta2 name of its own form, the stored line not stored, any other line itself. |
| `CrdAlias.NameLines` | hack/add-v1beta2-alias.py:36-45 | The name lines of either version are exactly the two forms, followed by white space. |
| `CrdAlias.BoundaryLines` | hack/add-v1beta2-alias.py:36-45 | List-item headers start with two spaces, a dash and a space; sibling keys are two spaces and a letter. |
| `TokenRotation.TokenNeverLapses` | internal/controller/plugin/eks/rotator_controller.go:115-195 | In every timed run, early wake-ups included, in which each token outlives refreshBefore when scheduling, and lateness and waits for retries take less than refreshBefore, the stored token is unexpired at every instant. |
| `TokenRotation.RequeueBounds` | internal/plugin/eks/policy.go:28-60 | The delay is positive and at most the largest of the three bounds after defaulting, and ends at least refreshBefore ahead of the expiration when there is time. |
| `TokenRotation.NextIsDue` | internal/plugin/eks/policy.go:28-60 | The delay after each kind of pass with the defaults in numbers: the failure backoff without an expiration, the immediate requeue inside refreshBefore, and otherwise refreshBefore ahead of the expiration unless maxRefresh comes first. |
| `TokenRotation.CoversIff` | internal/plugin/eks/policy.go:45-60 | Every lateness below refreshBefore is covered exactly when the token had more than refreshBefore left. |
| `TokenRotation.NineRetries` | internal/plugin/eks/policy.go:5-26 | With the default policy and punctual wake-ups the promise covers nine failures in a row that are retried after the failure backoff, and not ten. |
| `Deletion.TerminateInBatches` | internal/controller/plugin/eks/karpenter_bootstrapper_controller.go:884-897 | The loop makes the calls of the specification, up to the first that fails. |
| `Deletion.CallSizes` | internal/controller/plugin/eks/karpenter_bootstrapper_controller.go:884-897 | Each call carries at most 50 ids and only the last one fewer. |
| `Deletion.CallsPartition` | internal/controller/plugin/eks/karpenter_bootstrapper_controller.go:884-897 | Together the calls name the ids from the first on, each once and in order; all of them exactly when every call needed but the last succeeds, and the whole succeeds exactly when all do. |
| `Deletion.CallOutcomes` | internal/controller/plugin/eks/karpenter_bootstrapper_controller.go:884-897 | A call is made only when all before it succeeded; one that fails is the last, and then the whole fails. |
| `Deletion.CleanupInstances` | internal/controller/plugin/eks/karpenter_bootstrapper_controller.go:848-901 | One look sees and terminates what its specification says: failed, gone exactly when no live and no shutting-down instance was described, or in progress. |
| `Deletion.IdsAreTheInstances` | internal/controller/plugin/eks/karpenter_bootstrapper_controller.go:848-901 | The live ids are those of the instances that are pending, running, stopping or stopped, and the others those that are shutting down, without blank ones. |
| `Deletion.CleanupInterfaces` | internal/controller/plugin/eks/karpenter_bootstrapper_orphan_eni_cleanup.go:20-120 | Looks up the group, lists, and deletes the candidates as its specification says; done exactly when there is no group of ours with an id or no candidate in a list that was read. |
| `Deletion.CandidatesAreOrphans` | internal/controller/plugin/eks/karpenter_bootstrapper_orphan_eni_cleanup.go:122-148 | An id is a candidate exactly when some listed interface that is unattached, available and the CNI's has it. |
| `Deletion.OrphansAreTheCni` | internal/controller/plugin/eks/karpenter_bootstrapper_orphan_eni_cleanup.go:122-148 | An orphan is an interface that is unattached, available and whose first eks:eni:owner tag says amazon-vpc-cni in any case and with any white space around it. |
| `Deletion.SuspendFlux` | internal/controller/plugin/eks/karpenter_bootstrapper_controller.go:749-803 | Succeeds exactly when each Flux object is absent, not ours, suspended, or was suspended now. |
| `Deletion.DeletePass` | internal/controller/plugin/eks/karpenter_bootstrapper_controller.go:630-747 | A pass does what its specification says for every outcome of every call, and schedules the failure backoff exactly when it is not done; the next rows say what that means. |
| `DeletionPromises.DoneMeansClear` | internal/controller/plugin/eks/karpenter_bootstrapper_controller.go:630-747 | A pass is done exactly when both Flux objects are settled and, with the names resolved, one of at most three looks described no instance, after looks that each terminated everything live, and then there was no orphan interface. |
| `DeletionPromises.DoneEndsClear` | internal/controller/plugin/eks/karpenter_bootstrapper_controller.go:630-747 | The trace of such a pass ends with these two sightings: no instance and then no orphan interface. |
| `DeletionPromises.UnresolvedLooksAtNothing` | internal/controller/plugin/eks/karpenter_bootstrapper_controller.go:671-683 | A pass that is done without the names has looked at no instance and no interface. |
| `DeletionPromises.PassIsJustified` | internal/controller/plugin/eks/karpenter_bootstrapper_controller.go:630-747 | Each thing a pass did: terminations only after both Flux objects were settled, each active one by a suspension made before, and only of instances the look just before described as live; sightings are what was described; interfaces are deleted only as candidates of the list that was read. |
| `DeletionProgress.SightingsAre` | internal/controller/plugin/eks/karpenter_bootstrapper_controller.go:687-714 | The sightings of a pass are exactly those of the looks that are made: with Flux settled and the names known, each of at most three after looks that had live instances and terminated all of them. |
| `DeletionProgress.TerminationsAre` | internal/controller/plugin/eks/karpenter_bootstrapper_controller.go:884-897 | Its terminate calls are exactly the batches of 50 of what such a look saw alive, from the first up to the first that fails. |
| `DeletionProgress.LiveAreTerminated` | internal/controller/plugin/eks/karpenter_bootstrapper_controller.go:848-901 | So every instance such a look saw alive is named in a terminate call when the calls before its batch do not fail. |
| `DeletionProgress.DeletionsAre` | internal/controller/plugin/eks/karpenter_bootstrapper_orphan_eni_cleanup.go:20-120 | The interfaces deleted are exactly the candidates of the list, once no instance is left, up to the first call that fails, but for those gone already. |
| `DeletionProgress.FluxActions` | internal/controller/plugin/eks/karpenter_bootstrapper_controller.go:749-803 | A Flux object is suspended exactly when it is active, ours and the patch goes through, the second only with the first settled, and provisioning is stopped exactly when both are. |
| `Deletion.BackoffIsPositive` | internal/controller/plugin/eks/karpenter_bootstrapper_controller.go:2301-2306 | The backoff is positive unless a negative one is configured, and what is configured unless that is zero. |
| `Deletion.NamesInOrder` | internal/controller/plugin/eks/karpenter_bootstrapper_controller.go:650-668 | The region is the cluster's annotation, the secret's or the ACK cluster's, in that order and where not blank; the secret's EKS name serves only when region and EKS name are both blank; with both given a pass never skips the cleanup. |
| `CleanupFinalizer.OnlyADonePassRemoves` | internal/controller/plugin/eks/karpenter_bootstrapper_controller.go:135-154 | Over every run of reconciles and deletions, each reading a version as old as its cache may hold: when something was created and the finalizer is gone, or the cluster, a done deletion pass took it with nothing created since; it knew region and EKS name when the version it read had both annotations or was no older than the one stored at the first creation. |
| `CleanupFinalizer.NothingIsLeftBehind` | internal/controller/plugin/eks/karpenter_bootstrapper_controller.go:135-154 | That pass saw no instance and then no orphan interface exactly when the version it read, the secret or the ACK cluster told it region and EKS name, and otherwise looked at nothing. |
| `CleanupFinalizer.CreatedUnderFinalizer` | internal/controller/plugin/eks/karpenter_bootstrapper_controller.go:152-309 | Whenever something is created the stored cluster has the finalizer and both annotations, however outdated the copy was. |
| `CleanupFinalizer.ResolvedIff` | internal/controller/plugin/eks/karpenter_bootstrapper_controller.go:650-683 | Exactly when a deletion pass has both names, from the annotations it read, the workload secret and the ACK cluster. |
| `CleanupFinalizer.OutdatedPassLooksAtNothing` | internal/controller/plugin/eks/karpenter_bootstrapper_controller.go:135-154 | A run with a cache that never goes back in which the finalizer goes and nothing was looked at: the cluster is deleted between the finalizer and the annotations, the reconcile under way creates, and the next one reads the version in between and finds neither secret nor ACK cluster. |
| `CleanupFinalizer.NodeIsLeftBehind` | internal/controller/plugin/eks/karpenter_bootstrapper_controller.go:135-154 | An instance of it with a node still running. |
| `AckIndex.IndexAgreesWithScan` | internal/controller/plugin/eks/rotator_controller.go:396-437 | For a name without outer white space the requests from the index equal those from the namespace list. |
| `AckIndex.UntrimmedNames` | internal/controller/plugin/eks/cluster_index.go:13-24 | For any other name the index finds nothing, so they agree exactly when no enabled cluster resolves to it. |
| `AckIndex.RequestsAreExact` | internal/controller/plugin/eks/rotator_controller.go:419-436 | A cluster is requested exactly when an enabled one of that key resolves to the name. |
| `AckIndex.RequestsAreDistinct` | internal/controller/plugin/eks/rotator_controller.go:419-436 | No request is repeated. |
| `AckIndex.MapAckCluster` | internal/controller/plugin/eks/rotator_controller.go:396-437 | Index first, namespace list when it fails, nothing when both fail or the name is blank. |
| `AckIndex.ResolvedNames` | internal/controller/plugin/eks/rotator_controller.go:304-338 | Only a cluster's own name can resolve to a name with outer white space. |
| `AckIndex.NamesInOrder` | internal/controller/plugin/eks/rotator_controller.go:304-338 | A cluster resolves to the ACK annotation, then the EKS one, then the name of a control plane reference of ours, then its own name, the first three trimmed and where not blank. |
| `InfraCluster.ClusterCopy.Reconcile` | internal/controller/infrastructure/kany8scluster_controller.go:64-212 | The reconcile as it is written, on a copy that may be outdated: one merge patch carries the verdict to the stored cluster, an error, that of the patch included, leaves the stored status alone, and the instance is written exactly when definition and document can be used. |
| `InfraCluster.DecisionMeans` | internal/controller/infrastructure/kany8scluster_controller.go:72-212 | The verdict: an error exactly when the instance cannot be written or read; otherwise exactly one of provisioned, look again and failed, and when each of them holds; provisioned says what Ready says. |
| `InfraCluster.VerdictTells` | internal/controller/infrastructure/kany8scluster_controller.go:72-212 | The reason and message of each verdict: what is wrong with the definition or the owner, in order; what the instance says, or these where it says nothing; the document's problem, in Ready and in the failure alike. |
| `InfraCluster.StoredAgrees` | internal/controller/infrastructure/kany8scluster_controller.go:199-207 | What is stored afterwards agrees with the verdict exactly when no field the copy already showed as the verdict has it was stored otherwise; always for a copy with the stored status. |
| `InfraCluster.EveryVersionIsWellFormed` | internal/controller/infrastructure/kany8scluster_controller.go:199-207 | In every run of edits and reconciles that read the stored status, with any spec they saw, each version has Ready as provisioned and no failure when provisioned. |
| `InfraCluster.OutdatedCopyKeepsTheFailure` | internal/controller/infrastructure/kany8scluster_controller.go:199-207 | With an outdated copy a run reaches Ready=True beside provisioned=false and a failure. |
| `InfraCluster.FailureKeptForExample` | internal/controller/infrastructure/kany8scluster_controller.go:199-207 | An instance of that run: a document that is null for a while. |
| `InfraCluster.IdentityIsInjected` | internal/controller/infrastructure/kany8scluster_controller.go:214-242 | The instance that is written has the cluster's name and namespace, and the owner's uid exactly when the definition asks for it; every other key is the user's. |

## Left out

- ManagedObjects.UpsertTwiceIsUnchanged: takes writes of which none lies at, above or below another, which is sufficient and not necessary, because all the program's writes are of that form (ManagedWrites.WritesAreIndependent).
- FacadeSafety.ReadyHasNoFailure: holds for runs whose reconciles start from the stored status, because an outdated copy can keep a failure; the exact condition for one patch is ReadyPatchClearsFailure.
- FacadeSecret.KubeconfigIsCopied: a reconcile from the stored object that nothing interrupts; KubeconfigIsTold, KubeconfigIsWritten and ReadyNeedsKubeconfig are about all runs, because another actor may change the secret, the condition or the source in between.
- FacadeProgress.UninterruptedRequeue: likewise; RequeueUnlessSettled and NeverStuck are about all runs.
- Endpoint.RoundTrip: the reading of IP literals between brackets is a parameter of which only that decoding makes none longer is assumed, because zone and address syntax is the URI library's.
- Endpoint.Parse: the texts of errors are kept apart by kind only, and of several faults of one text another may be named, and digits of any length are one number, because a port too large for the machine is refused either way.
- FacadeFixedPoint.SecondReconcileChangesNothing: is about two reconciles from the stored object that nothing interrupts, because a change in between is a reason to change something; leaves aside timestamps, ObservedGeneration and the order of the condition list, because the endpoint patch changes the generation without meaning anything.
- SharedBackend.InitializedHasEndpointTogether: nobody but the two controllers changes the stored backend, because what others may do to it is already in FacadeSafety.InitializedHasEndpoint and KubeadmController.KRunInv.
- TokenRotation.NineRetries: errors returned to the queue are retried at its own pace and are among the waits of TokenNeverLapses, because that pace is not the policy's.
- TokenRotation.TokenNeverLapses: unbounded integers stand for durations, because saturation only matters centuries away.
- AckIndex.IndexAgreesWithScan: takes both lists in the same order, because the order of an informer's answer is not promised; RequestsAreExact is independent of it.
- HelmValues.DeepMerge: takes inputs in which no map node is reached twice, because decoded YAML and the defaults have that form; slices are leaves and are shared as the program shares them.
- CrdAlias.ProcessedTwice: takes "\r\n" as two line breaks, because the difference is an empty line.
- CleanupFinalizer.NothingIsLeftBehind: follows one Cluster object from its creation to its end, because a Cluster made again under the name is another life; other finalizers are not modelled.
- Deletion.DeletePass: the wait between attempts and the outcome of stopping the workload's Karpenter are not modelled, because the pass goes on in either case.
- BootstrapFiles.MergedHolds: says nothing on distinctness when an injected path is empty, because such files are never overridden.
- Reconciles are state machines on values rather than one method each, because other actors move between any two writes; only the facade's second half, the infrastructure cluster, the upserts, the caches and the deletion pass are methods as well.
- The kubeadm controller's certificates, kubeconfig, KubeadmConfig, infrastructure machine and Machine writes are one observation that succeeds or asks for a requeue.
- A backend, secret or managed object update is one atomic read and write, because it carries the resource version that was read and a conflict is a failing write; patches without one, and a backend update that finds nothing to write (SharedBackend.OlderRead), are modelled with what they read.
- The API server's schema checks are failing writes, except the bounds on the kubeadm backend's endpoint, which KubeadmController.InBounds has.
- Delivery in the end: that a pending event is sent at last depends on timers and on the consumer; only that it is not lost is proved.
- Informer internals, cache synchronization, and the mapping from kinds to resources.
- AWS, TLS and Kubernetes clients, kubeconfig, certificate and token encoding, and the JSON and YAML codecs are observations.
- IAM policy and NodePool templates, tags, subnet validation, OIDC thumbprints, name shortening and hashing.
- Event texts beyond conditions, logging, metrics, flags, manager setup and RBAC.
- Percent-decoded octets of a host are single characters.
- ResourceGraphDefinitionResolved is only ever written False, as in the source.

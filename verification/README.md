# Provisioning model of the DataLab API

The DataLab API creates JupyterHub environments and a Kafka cluster in Kubernetes. A request reserves a
namespace and starts a background worker; the worker creates the objects of the environment one after the
other, skips those that exist, and leaves an annotation when a call fails. Workers are not coordinated: there
can be any number of them on one namespace, each with secrets it generated itself, and any of them can fail,
lose an answer, crash, or go on after its namespace was deleted and reserved again.

This project models that code in Dafny and proves what it guarantees over every run.

| file | contents |
|---|---|
| `Kubernetes.dfy` | the rules of the API server that the code relies on, for one namespace name |
| `Protocol.dfy` | requests and workers as a transition system; a run is a sequence of actions |
| `ProtocolInvariants.dfy` | what every action keeps, and how an incarnation grows |
| `ProtocolSafety.dfy` | order, references, error reports, verdicts and credentials |
| `ProtocolProgress.dfy` | interleaved workers against "add what is missing"; recovery by a retry |
| `ProtocolAccounting.dfy` | conservation of created objects; termination of workers |
| `ProtocolOwnership.dfy` | exclusive reservation, ownership and deletion |
| `ProtocolKafka.dfy` | the Kafka instance of the protocol |
| `ProtocolLimits.dfy` | runs that show where the guarantees end, and what follows from a missing setting |
| `Catalog.dfy`, `ErrorTexts.dfy` | the step lists with their references; the text of the error annotation |
| `Provisioning.dfy` | the provisioning code as methods over a mutable cluster, each call one protocol action |
| `Manifests.dfy` | the cached manifests, their deep copies and the builders that change them in place |
| `ConfigTree.dfy` | merging and looking up the configuration of the hub |
| `HubServers.dfy` | starting and stopping a user's server through the hub |
| `Settings.dfy`, `KafkaTexts.dfy`, `Texts.dfy` | comma-separated settings, voter list, bootstrap list |

## How the protocol is modelled

One namespace name is modelled with all its incarnations: each successful reserve makes a new one, numbered in
order. The state holds the namespace (phase, annotations, objects with the worker whose body was stored), the
workers, and the delete requests that were checked and not yet carried out. `Next` is a total function of the
state and an action. The action says who moves and what becomes of the call: answered, lost (applied or not),
or lost together with the process. An action that the code refuses leaves the state alone. `Reached(cfg, acts)`
is the state after the actions `acts`, so a statement about every sequence `acts` is one about every reachable
state, and `Exec` from a reached state speaks about later moments.

A request handler that reads a namespace and then acts on its name is not atomic in the code. Deletion is
therefore two actions (the check, then the deletion by name). A retry only starts a worker, which may act
arbitrarily late. A handler that dies between reserving and starting its worker, or that never learns that its
reserve was carried out, is a worker that crashes at once.

Workers know only the name of the namespace. Three history fields of an incarnation record what that can lead to:
`straddled`, when a worker whose first create was in another incarnation has stored an object in it;
`misannotated`, when such a worker has changed its annotations; and `strayed`, when a worker that was started for
another incarnation has done either. No rule reads them.

- The theorems about prefixes, references and `ready` are about incarnations that are not `straddled` (for `ready`,
  up to the read of the deployment). `StraddlerLeavesGap` and `StraddlerBreaksReferences` are runs that break them
  otherwise; `CreateKeepsPrefixIff` and `CreateKeepsReferencesIff` say at which create that is decided, and
  `WorkerLeavesNoGap` is what holds without the condition.
- The theorems about error reports are about incarnations that are not `misannotated`; creates by straddling workers
  do them no harm. `LateClearHidesFailure` is a run in which a clearing call alone removes the error of an empty
  environment, and `StraddlerMisreports` one in which a recording names a step after a missing one. Those are
  decided at the clearing call (`ClearIsSoundIff`) and at the recording (`RecordIsExactIff`), or by reading two
  objects at any later moment (`ErrorIsExactIff`).

Assumptions about Kubernetes: creating a stored key answers 409 and leaves the object alone; creating in a
missing or terminating namespace fails; objects disappear only while their namespace terminates; a null in an
annotation patch removes the key (section 2 of RFC 7396).

## What the code does and its documentation does not say

- Deletion is not limited to the creator and administrators. The handlers check the namespace that they read and
  then delete by name; when the name was deleted and reserved again in between, they delete the namespace of
  somebody else (`FormerOwnerDeletes`). `DeletionIsAllowedIff` says exactly when a deletion is one that its user
  was entitled to: when the same check would succeed at the moment of the deletion. That the deleted incarnation
  is the checked one, which a uid precondition on the delete call would enforce, is sufficient. The same holds for
  what workers create and annotate (`FormerOwnerProvisions`, `WorkIsAllowedIff`, `StoredByManagerIff`).
- The password that a create request for Kafka returns is not always the stored one. A provisioner that starts
  after its cluster was deleted and requested again stores the old password in the new cluster
  (`StrayProvisionerStoresOldPassword`). `CreateHonoursRequestIff` says at which create that is decided, and
  `RequestIsHonoured` what it means for every later state.
- Environments of the types `ids`, `ipcc` and `dummy` are completed without an error when the setting that their
  hub reads at start is missing (`UnconfiguredTypeIsComplete`). The stored secret is usable exactly when the worker
  that stored it was configured (`StoredSecretIsUsableIff`), and since a secret is written once, no retry repairs
  it after the setting was added (`SecretEntriesAreFinal`, `RetryCannotRepairSecret`).
- Error reports are sound, not exact. A worker that records its failure late, after another one has finished,
  leaves an error on a complete environment (`LateRecordIsStale`); so does a retry that creates everything and dies
  before it clears an error that was exact until then (`CrashBeforeClearIsStale`); and a failure of the final call,
  which clears the error, is recorded under the name of the last step, whose object exists
  (`ClearFailureIsMisnamed`). `ErrorIsExactIff` says in every state exactly when an error is exact: when the object
  of the step that it names is missing. With a single provisioner it always is, up to one lost answer
  (`KafkaErrorIsExact`).
- `ready` does not wait for the ingress (`ReadyBeforeIngress`).
- A reserve whose answer is lost leaves a namespace without any worker (`KubeClient.ReserveNamespace`); a retry
  completes it (`RetryRecovers`).

## Model

| member | source | states |
|---|---|---|
| ProtocolInvariants.InvKept | datalab_api/services/environments.py:249-273 | Every action of requests, workers and cluster keeps positions, prefix, origin of bodies and soundness of the error |
| ProtocolInvariants.GrowsAlong | datalab_api/k8s.py:59-70 | Between two moments of a run in the same incarnation, the later one active, nothing stored was lost or replaced |
| Kubernetes.CreateRules | datalab_api/k8s.py:59-70 | The assumed rule of the API server: a create is accepted exactly in an active namespace without the key and adds only that key; a conflict and each refusal have their own exact condition and change nothing |
| Kubernetes.PatchRules | datalab_api/k8s.py:55-56 | The assumed rule of an annotation patch: nulls remove, other values are stored, the rest stays, and repeating it changes nothing (section 2 of RFC 7396) |
| ProtocolSafety.WorkerLeavesNoGap | datalab_api/services/environments.py:249-262 | With no assumption on workers, all objects before a worker's position exist in the incarnation it joined |
| ProtocolSafety.CreatedObjectsArePrefix | datalab_api/services/environments.py:249-262 | In every reachable active incarnation in which no straddling worker has stored anything, the objects are a prefix of the step list, with or without the shared volume |
| ProtocolSafety.CreateKeepsPrefixIff | datalab_api/k8s.py:59-70 | A create keeps the prefix exactly when it never reaches the cluster or the object of the step before is there, whatever becomes of its answer |
| ProtocolSafety.CreateKeepsReferencesIff | datalab_api/k8s.py:59-70 | A create keeps the references closed exactly when it never reaches the cluster or what its own object refers to is there |
| ProtocolSafety.ReferencesClosed | datalab_api/services/environments.py:185-262 | Whatever a stored object refers to is stored, for any topologically ordered step list |
| ProtocolSafety.EnvironmentReferencesClosed | datalab_api/manifests/hub/hub-deployment.yaml:17-101 | Role binding, proxy deployment, hub deployment and ingress never exist without the objects they need, each named; the hub of ids also not without its shared claim |
| Catalog.EnvironmentTopological | datalab_api/services/environments.py:185-257 | The step order is a topological order of the references between manifests, also after the insertion at index 6 |
| Catalog.EnvironmentWellFormed | datalab_api/services/environments.py:185-257 | No two steps of an environment create the same object |
| Catalog.IdsSteps | datalab_api/services/environments.py:185-257 | The thirteen steps of an ids environment in order, with the shared claim as the seventh, to which the hub deployment refers |
| Catalog.OtherSteps | datalab_api/catalog.py:36-85 | Every other type has the same steps without the shared claim, and its hub does not refer to one |
| Catalog.ClaimsOf | datalab_api/catalog.py:36-85 | The volume claims of an environment are the one of the hub and, exactly for ids, ids-data-shared |
| Catalog.NamespacesAreDistinct | datalab_api/catalog.py:100-101 | Types have different namespaces, and the name of the type can be read back from its namespace |
| Catalog.KafkaWellFormed | datalab_api/services/kafka.py:262-280 | The Kafka steps are distinct and in a topological order |
| Catalog.KafkaStepsTable | datalab_api/services/kafka.py:262-280 | The five Kafka steps in order, and what the stateful set refers to |
| Catalog.AnnotationsDiffer | datalab_api/config.py:121-127 | Owner and error annotation have different keys for every prefix, each the prefix with its own name |
| Catalog.AnnotationKeys | datalab_api/config.py:121-127 | Environments and Kafka record owner and error under the same two keys, each for what its name says |
| Catalog.EnvironmentNamesReadable | datalab_api/services/environments.py:259-271 | Step names are distinct and contain no separator, so the annotation names one step |
| Catalog.KafkaNamesReadable | datalab_api/services/kafka.py:262-291 | The same for the Kafka steps |
| ErrorTexts.StepNameRecovered | datalab_api/services/environments.py:269-271 | The text before the first ": " is the step name exactly when the name contains no ": " |
| ErrorTexts.ReasonRecovered | datalab_api/services/environments.py:268-271 | For such names the reason is what follows, whatever it contains |
| ProtocolSafety.RecordedErrorIsSound | datalab_api/services/environments.py:259-273 | A recorded error names exactly one step, and no object before that step is missing, also when straddling workers have stored objects |
| ProtocolSafety.ErrorIsExactIff | datalab_api/services/environments.py:276-303 | In every reachable unstraddled state with an error: it is exact exactly when the object of the step it names is missing and that of the step before exists, and sound exactly when the latter exists, which is certain unless a straddling worker has changed the annotations |
| ProtocolSafety.RecordIsExactIff | datalab_api/services/environments.py:265-273 | A recording that reaches the cluster, answered or not, leaves an exact error exactly when the object of its step is still missing and that of the step before exists; the latter is certain for workers that do not straddle |
| ProtocolSafety.ClearIsSoundIff | datalab_api/services/environments.py:264 | The clearing call leaves no error, and the environment is then complete exactly when it was before, which is certain for workers that do not straddle; in unstraddled incarnations the object of the last step decides it |
| ProtocolSafety.FailureIsReported | datalab_api/services/environments.py:265-271 | A create that raises, followed by an answered call, leaves an annotation with the name of its step and the reason |
| ProtocolSafety.NoErrorMeansComplete | datalab_api/services/environments.py:259-273 | As soon as one worker of the incarnation has finished or reported its failure, no error means that every object exists, whatever other workers do or have suffered |
| ProtocolSafety.ReportedVerdict | datalab_api/services/environments.py:286-303 | From then on an incomplete environment is described as failed, and one described as ready or provisioning is complete |
| ProtocolSafety.VerdictMeans | datalab_api/services/environments.py:276-303 | Each status exactly in terms of the fields read: ready needs a ready replica of the hub and of the proxy in their own reads, failed a non-empty error, deleting a terminating namespace |
| ProtocolSafety.ReadyMeansProvisioned | datalab_api/services/environments.py:276-303 | Ready from three reads at different moments implies that everything up to the hub deployment exists and that both deployments had a ready replica when they were read, if the incarnation is still active and was unstraddled when the hub deployment was read |
| ProtocolSafety.ReadyMissesOnlyIngress | datalab_api/services/environments.py:236-303 | For every deployment type that is everything but the ingress |
| ProtocolSafety.TokenIsWriteOnce | datalab_api/services/environments.py:335-348 | While the incarnation is active every token read answers the same: the token of the worker whose create stored the secret |
| ProtocolSafety.TokenMeans | datalab_api/services/environments.py:335-348 | The token is the namespace's own, else a non-empty fallback, else none |
| ProtocolSafety.HubSecretIsUsable | datalab_api/services/environments.py:59-78 | The generated secret has the entries that the hub of a type needs exactly when the settings of that type are given; tokens and settings are stored unchanged, and an empty setting or one of another type adds no entry |
| ProtocolSafety.StoredSecretIsUsableIff | datalab_api/manifests/hub/configmaps/configmap-ids.yaml:138 | In every reachable state the stored secret has what the hub needs exactly when the worker that stored it was configured; the API finds its token there |
| ProtocolSafety.SecretEntriesAreFinal | datalab_api/services/environments.py:186-190 | As long as the incarnation is active no later worker adds an entry to the stored secret or changes one |
| ProtocolSafety.DeploymentsFindTheirSecret | datalab_api/manifests/hub/hub-deployment.yaml:38-65 | When a deployment exists so does its secret, it is the one the API reads, and it is usable exactly when its creator was configured for the type |
| ProtocolLimits.StraddlerLeavesGap | datalab_api/services/environments.py:249-262 | A run in which a worker continues in the next incarnation and breaks the prefix there |
| ProtocolLimits.StraddlerBreaksReferences | datalab_api/services/environments.py:276-303 | For every type a run in which such a worker leaves both deployments without the secret they refer to, and the environment is ready |
| ProtocolLimits.StraddlerHidesFailure | datalab_api/services/environments.py:259-273 | A run in which such a worker clears the error that the new incarnation has recorded: all its workers have reported, there is no error, and an object is missing |
| ProtocolLimits.LateClearHidesFailure | datalab_api/services/environments.py:264 | A run in which only the clearing call of a straddling worker reaches the new incarnation: all its workers have reported, nothing exists, and there is no error |
| ProtocolLimits.StraddlerMisreports | datalab_api/services/environments.py:265-273 | A run in which the error of such a worker names a step although the object of an earlier one is missing |
| ProtocolLimits.LateRecordIsStale | datalab_api/services/environments.py:259-273 | A run that ends with an error on a complete environment, described as failed |
| ProtocolLimits.CrashBeforeClearIsStale | datalab_api/services/environments.py:259-264 | A run in which a retry creates everything and crashes before clearing: an error that was exact remains on a complete environment |
| ProtocolLimits.ClearFailureIsMisnamed | datalab_api/services/environments.py:264-273 | A run in which only the clearing fails, and the error names the last step, whose object exists |
| ProtocolLimits.UnconfiguredTypeIsComplete | datalab_api/manifests/hub/configmaps/configmap-dummy.yaml:114 | For each type that needs a setting, a run without it that completes the environment without an error and stores a secret on which the hub cannot start |
| ProtocolLimits.RetryCannotRepairSecret | datalab_api/routers/deployments.py:138-153 | From every such state an undisturbed retry with any settings completes the environment, removes the error, and leaves the secret as unusable as it was |
| ProtocolLimits.UnrecordedFailureIsSilent | datalab_api/services/environments.py:268-273 | A run in which the failure and its recording are both lost, so that nothing exists and no error is shown |
| ProtocolLimits.ReadyBeforeIngress | datalab_api/services/environments.py:298-301 | For every type a run in which ready is reported before the ingress exists |
| ProtocolProgress.InterleavingAddsMissing | datalab_api/services/environments.py:175-264 | Every fault-free interleaving keeps what exists and adds each missing object with the body of the worker that reached its step first |
| ProtocolProgress.InterleavingMatchesSoloRun | datalab_api/services/environments.py:175-264 | Once a worker is done, an interleaving has stored the same keys as one worker running alone |
| ProtocolProgress.SoloRun | datalab_api/services/environments.py:259-264 | An undisturbed worker, of an environment or of Kafka, stores every missing object as it generated it, replaces nothing, and clears the error where there is a clearing call |
| ProtocolProgress.RetryRecovers | datalab_api/routers/deployments.py:138-153 | From every active state, after any faults, one undisturbed retry adds every missing object as it generated it, replaces nothing, and removes the error |
| ProtocolAccounting.CreatesAreConserved | datalab_api/k8s.py:59-70 | Creates that answered True, summed over all workers, plus those whose answer was lost are the objects of an active incarnation |
| ProtocolAccounting.CallsDecrease | datalab_api/services/environments.py:259-273 | Every call of a live worker decreases the total number of calls left |
| ProtocolAccounting.WorkersTerminate | datalab_api/services/environments.py:259-273 | In any interleaving with any faults the workers make at most that many calls |
| ProtocolOwnership.OwnershipIsStable | datalab_api/services/environments.py:151-172 | One reserve succeeds per incarnation, its subject is the recorded owner in every later state, and every delete request was allowed by the incarnation it was checked against |
| ProtocolOwnership.DeletionIsAllowedIff | datalab_api/routers/deployments.py:164-166 | For every reachable state and pending delete request: the deletion is one its user is entitled to exactly when the check would succeed at that moment, that is for administrators and when the checked and the deleted incarnation have the same creator; seeing the same incarnation is sufficient |
| ProtocolLimits.FormerOwnerDeletes | datalab_api/routers/deployments.py:156-166 | A run in which a user who is no administrator deletes the namespace of somebody else |
| ProtocolOwnership.DeletedByManager | datalab_api/security.py:93-104 | Over every run, a terminating incarnation was deleted by its creator or an administrator exactly when the request came from an administrator or was checked against an incarnation of the same creator |
| ProtocolOwnership.WorkIsAllowedIff | datalab_api/security.py:93-104 | For every reachable state and worker: its calls are ones its starter is entitled to exactly when the check would succeed for the incarnation it meets, that is for administrators and when that incarnation has the creator of the one it was started for |
| ProtocolOwnership.StoredByManagerIff | datalab_api/routers/deployments.py:147-149 | Over every run a stored object comes from a request of the creator of its incarnation or of an administrator under the same condition, and always if no stray worker has acted |
| ProtocolLimits.FormerOwnerProvisions | datalab_api/routers/deployments.py:101 | A run in which the worker of a former owner stores an object in the namespace of the next one |
| ProtocolOwnership.SubjectsAreInjective | datalab_api/security.py:44 | Subjects are equal exactly when provider and account are |
| ProtocolOwnership.SubjectReadsBack | datalab_api/security.py:44 | Provider and account are what is before and after the first colon |
| ProtocolOwnership.ProvidersAreDistinguished | datalab_api/routers/auth.py:129-136 | Accounts of the two providers never share a subject |
| ProtocolKafka.OneProvisioner | datalab_api/routers/kafka.py:37-46 | An incarnation of the Kafka namespace has one provisioner, and while no stray worker acted it created every object |
| ProtocolKafka.RequestIsHonoured | datalab_api/routers/kafka.py:32-56 | In every later state the stored password and size are those of the create request exactly when the workers that stored them were started with the same; while only the own provisioner has acted, the secret holds exactly the two passwords of the request |
| ProtocolKafka.CreateHonoursRequestIff | datalab_api/services/kafka.py:281-285 | A create of the secret or the stateful set leaves what was promised exactly when it was stored before, or nothing was and the caller is the own provisioner or was started with the same value |
| ProtocolLimits.StrayProvisionerStoresOldPassword | datalab_api/routers/kafka.py:37-46 | A run in which a late provisioner stores the password of the previous cluster |
| ProtocolKafka.KafkaErrorIsExact | datalab_api/services/kafka.py:281-294 | While only the own provisioner has acted, an error at step i means that exactly the first i objects exist, and object i exactly when its create was applied and the answer lost |
| ProtocolKafka.ErrorStays | datalab_api/services/kafka.py:286-294 | A recorded error stays until its incarnation is gone, with the same text while no stray worker acted |
| ProtocolKafka.KafkaReadyMeansProvisioned | datalab_api/services/kafka.py:297-321 | Ready from two reads implies that all five objects exist, if the set was read in an unstraddled incarnation that is still active; the reported size is the one the creator of the set was started with, which is the own provisioner unless a stray one has acted |
| ProtocolKafka.KafkaVerdictMeans | datalab_api/services/kafka.py:297-321 | Each status exactly in terms of the fields read: ready needs a stateful set of positive size with at least as many ready replicas |
| ProtocolKafka.KafkaReferencesClosed | datalab_api/services/kafka.py:103-225 | The stateful set never exists without its secret, its account and its headless service |
| Provisioning.KubeClient.ReserveNamespace | datalab_api/services/environments.py:151-172 | Accepted exactly when the call is answered and the name is free, a conflict exactly when it is answered and taken; any other failure starts no worker, although the namespace may exist |
| Provisioning.KubeClient.RetryEnvironment | datalab_api/routers/deployments.py:138-149 | Is the retry action, and starts a worker exactly for a manager of an existing namespace |
| Provisioning.KubeClient.CreateIfAbsent | datalab_api/k8s.py:59-70 | Is one worker action; returns whether the key was absent, and raises exactly when the answer is lost or the namespace missing or terminating, with that reason |
| Provisioning.KubeClient.AnnotateNamespace | datalab_api/k8s.py:55-56 | Patches the annotations with any mapping, also when the answer is lost |
| Provisioning.KubeClient.StepList | datalab_api/services/environments.py:185-257 | The list has twelve steps, or for ids thirteen with ids-data-shared as the seventh and the others in their order; no key occurs twice and everything a step refers to is created before it |
| Provisioning.KubeClient.CreateInOrder | datalab_api/services/environments.py:259-263 | Each iteration is one protocol action; a failure leaves the name of the failed step |
| Provisioning.KubeClient.TrySteps | datalab_api/services/environments.py:259-273 | Steps, clearing and error recording are a run of the protocol and always end |
| Provisioning.KubeClient.ProvisionEnvironment | datalab_api/services/environments.py:175-273 | The whole worker refines the protocol under any interference; undisturbed it completes the environment, replacing nothing, and adds the claim of the hub and for ids the shared one |
| Provisioning.KubeClient.ProvisionKafka | datalab_api/services/kafka.py:258-294 | The same for Kafka, with nothing to clear: undisturbed it stores all five objects as it generated them |
| Manifests.DeepCopy | datalab_api/services/environments.py:47-49 | The copy has the same value and no node in common with anything older |
| Manifests.Assign | datalab_api/services/environments.py:128-132 | Assigning inside a document in place changes exactly the addressed slot |
| Manifests.ManifestStore.LoadManifest | datalab_api/services/environments.py:41-44 | The document equals its file, and once loaded every call answers with the same one |
| Manifests.ManifestStore.Manifest | datalab_api/services/environments.py:47-49 | Every result is new, equals the file and shares no node with the cache |
| Manifests.ManifestStore.BuildIngress | datalab_api/services/environments.py:123-134 | The body is the template rendered for the host of the type, and the cache is unchanged |
| Manifests.ManifestStore.BuildHubDeployment | datalab_api/services/environments.py:137-145 | The body is the template with the two entries appended, and the cache is unchanged |
| Manifests.IngressIsRendered | datalab_api/services/environments.py:126-133 | Host, backend name and port are set at their places, the TLS list has one entry with this secret and this host, and every other place is as in the template |
| Manifests.HubDeploymentIsRendered | datalab_api/services/environments.py:139-144 | The environment of the first container has the template's entries and exactly two more, each a name and a value, and every other place is as in the template |
| Manifests.Session | tests/test_deployments.py:163-170 | After any sequence of uses and any changes by callers to their results, each result depends on the files alone |
| ConfigTree.MergeDictionaries | datalab_api/manifests/hub/configmaps/configmap-ids.yaml:285-299 | The loop computes the recursive merge |
| ConfigTree.GetConfig | datalab_api/manifests/hub/configmaps/configmap-ids.yaml:302-321 | The walk answers what the dotted key finds, or the default |
| ConfigTree.LookByLevels | datalab_api/manifests/hub/configmaps/configmap-ids.yaml:308-321 | The text before the first dot is looked up in the mapping and the rest in what is found there; a last level gives its value |
| ConfigTree.LookupInMerge | datalab_api/manifests/hub/configmaps/configmap-ids.yaml:285-321 | For every path, the lookup in a merge in terms of the lookups in both sources |
| ConfigTree.EmptyIsIdentity | datalab_api/manifests/hub/configmaps/configmap-ids.yaml:230-240 | An empty configuration is a two-sided identity |
| ConfigTree.MergeIdempotent | datalab_api/manifests/hub/configmaps/configmap-ids.yaml:285-299 | Merging a source with itself changes nothing |
| ConfigTree.MergeAbsorbs | datalab_api/manifests/hub/configmaps/configmap-ids.yaml:285-299 | Merging either source again changes nothing |
| ConfigTree.AddsNothingIff | datalab_api/manifests/hub/configmaps/configmap-ids.yaml:285-299 | A merge leaves its second source as it is exactly when every path of the first is resolved or cut off there |
| ConfigTree.AssociativeIff | datalab_api/manifests/hub/configmaps/configmap-ids.yaml:285-299 | Merging is associative exactly when, wherever the middle source interrupts two mappings, the first adds nothing to the last |
| ConfigTree.NotAlwaysAssociative | datalab_api/manifests/hub/configmaps/configmap-ids.yaml:285-299 | Three sources for which it is not |
| ConfigTree.DottedKeyReaches | datalab_api/manifests/hub/configmaps/configmap-ids.yaml:308-312 | Joining texts without dots finds what descending through the mappings finds, level by level |
| ConfigTree.LoadConfig | datalab_api/manifests/hub/configmaps/configmap-ids.yaml:225-240 | One mapping document alone is the result, two are laid over each other path by path, the existing secret on top; a document that cannot be looped over and indexed by what the loop yields raises, and nothing else does |
| ConfigTree.DocumentsMean | datalab_api/manifests/hub/configmaps/configmap-ids.yaml:285-299 | What each kind of document contributes, or that it raises |
| ConfigTree.ListPassesIff | datalab_api/manifests/hub/configmaps/configmap-ids.yaml:285-299 | A list of numbers passes exactly when each of them indexes into it |
| ConfigTree.ListMaps | datalab_api/manifests/hub/configmaps/configmap-ids.yaml:285-299 | Such a list maps each number to the element at that position, counted from the end if negative |
| ConfigTree.ListIsInvisible | datalab_api/manifests/hub/configmaps/configmap-ids.yaml:285-299 | A list of numbers as a whole document, which passes if they index into it, changes nothing that a dotted key reaches |
| HubServers.StartsOwnTheirChange | datalab_api/services/hub_api.py:71-115 | In every interleaving each call that returned owns exactly one change of the server, and no change has two owners |
| HubServers.StartsNeedStops | datalab_api/services/hub_api.py:71-101 | Successful starts exceed the stops of the server by at most one |
| HubServers.RaceHasOneWinner | datalab_api/services/hub_api.py:71-101 | Of any number of starts racing for a stopped server, also for a missing user, one returns and the others raise a conflict |
| HubServers.HubRules | datalab_api/services/hub_api.py:71-115 | The assumed statuses of the hub for each request, user and server |
| HubServers.AnswersMean | datalab_api/services/hub_api.py:71-115 | For each request: how the call goes on or ends, and what it has done; a start that returns says correctly whether the server is running already |
| HubServers.FaultsEndCalls | datalab_api/services/hub_api.py:24-42 | Without a usable answer the call ends with an error |
| HubServers.DecisionsMean | datalab_api/services/hub_api.py:73-115 | For every status of an answer, which of the outcomes follows |
| HubServers.HubClient.LookUp | datalab_api/services/hub_api.py:73-86 | Is one event of the protocol, and ends or goes on as the answer says |
| HubServers.HubClient.CreateUser | datalab_api/services/hub_api.py:74-77 | The same for the creation of the user, which tolerates a 409 |
| HubServers.HubClient.Spawn | datalab_api/services/hub_api.py:88-101 | The same for the start itself |
| HubServers.HubClient.StartServer | datalab_api/services/hub_api.py:71-101 | Is a run of at most three events under any interference |
| HubServers.HubClient.StopServer | datalab_api/services/hub_api.py:103-115 | Is one event of the protocol |
| Settings.CsvItemsAreClean | datalab_api/config.py:84-89 | For every text, no item is empty or has edge whitespace or a comma |
| Settings.CsvSplitsAtCommas | datalab_api/config.py:84-89 | A comma separates the items before it from those after it, for every two texts |
| Settings.CsvTrimsItem | datalab_api/config.py:84-89 | A text without a comma gives what is left between the spaces at its ends, or nothing |
| Settings.CsvRoundTrip | datalab_api/config.py:84-89 | Every list of such items can be joined and read back |
| Settings.CsvNormalises | datalab_api/config.py:84-89 | Splitting, joining and splitting again is splitting |
| KafkaTexts.VotersMatchNodeIds | datalab_api/services/kafka.py:32-37 | The voter list splits into ids 0 to n-1, each with the address of its own pod under the headless service, and each id is the node id that the pod derives from its name (section 2.6.2 of the POSIX.1-2017 Shell Command Language) |
| KafkaTexts.BootstrapListsEveryHost | datalab_api/services/kafka.py:228-232 | The bootstrap list has one endpoint for each configured host, in order: the host, and after a colon the port |

## Left out

- CreatedObjectsArePrefix: holds for incarnations in which no straddling worker has stored anything; what holds without that is WorkerLeavesNoGap, and StraddlerLeavesGap shows that the condition is needed. The same condition is part of ReferencesClosed, ReadyMeansProvisioned and ReadyMissesOnlyIngress.
- RecordedErrorIsSound: holds for incarnations in which no straddling worker has changed the annotations; StraddlerMisreports shows that the condition is needed, and ErrorIsExactIff is what holds without it. The same condition is part of NoErrorMeansComplete and ReportedVerdict, where LateClearHidesFailure shows that it is needed.
- ReferencesClosed: the TLS secret named by the ingress is not among its references, because provisioning never creates it.
- OneProvisioner: that worker `i` made every object of incarnation `i` holds while no other worker has changed it; StrayProvisionerStoresOldPassword shows a run in which another one does. The same condition is part of ErrorStays (for the text) and KafkaErrorIsExact.
- RaceHasOneWinner: assumes that no request of the race is lost and nobody stops the server or removes the user; StartsOwnTheirChange has no such assumption.
- InterleavingAddsMissing: is about interleavings of worker calls alone; reports of readiness and new requests in between are covered by GrowsAlong.
- VotersMatchNodeIds: is stated for namespaces without commas and at-signs, which every DNS label is.
- Objects that others put into the namespace (user pods and their claims), and namespaces shared between types by configuration.
- The fields of responses other than the status (addresses, creator, error text, labels).
- Login, token signing and expiry, the OAuth exchanges and the state cookies; only the subject of a token is kept.
- Web framework, settings parsing apart from comma-separated lists, logging, and the mapping of exceptions to HTTP responses.
- The state of the shared volume as reported from Longhorn, and the lists of environments: decision tables of one level.
- Manifest details that no property uses (images, probes, resource limits, labels, selectors, ports).
- Encodings: base64 of tokens, percent-encoding of user names, and the rendering of integers in YAML documents.
- Types without a bundled hub configuration are refused before anything is reserved; the theorems hold for their step list as well.
- Reading the manifest files before the first cluster call is assumed to succeed for deployable types.
- The iteration order of dictionaries: loops over keys take them in any order.
- YAML anchors: documents are trees, as all bundled files are.

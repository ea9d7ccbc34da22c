# Presto operator: the reconcile protocol, verified

A model, with proofs, of the Kubernetes operator for Presto clusters: one reconcile pass as a sequence of calls that
may fail, any number of passes for any number of clusters interleaving call by call, the translation of a
PrestoCluster into ConfigMaps, Deployments and a Service, and the property printers and splitters.

`dafny verify dfyconfig.toml` checks everything.

## How it is modelled

**The API server** (`Store.dfy`) keeps, for every address (kind, namespace, name), the list of values it has held.
A PrestoCluster's resource version is its place in that list, so an update with a stale version is refused. `Create`
needs a free address, `Update` an occupied one; an update replaces a Deployment's spec and keeps its status; a status
update changes only the status. Any call may be rejected, or take effect and lose its reply; a read may return an
older value of its address, as a cache does. The operator may be restarted at any point of a pass, and begins a new one
with nothing remembered. Between two calls anyone may edit the CR, report availability, scale a
Deployment, or create, overwrite and delete objects; each theorem names what it excludes.

**A pass** (`Pass.dfy`) is an automaton: the call it makes next, and what it does with the reply. An error of the
drive step is remembered only in `driveFailed`, as the operator only logs it. `Solo.dfy` runs one cluster's operator
against the server and everyone else; `Isolation.dfy` runs all of them on one store and reduces every cluster's part
to such a run, so that a claim about one cluster which holds of all its runs holds after every interleaving
(`EveryInterleaving`). `Interleavings.dfy` does this for the main theorems.

**The operator** (`Operator.dfy`) has the classes of the Go code: inspector, reconciler, status updater, controller.
Every method is proved equal to the automaton's part of the pass under the same script of interference and faults,
and `ScriptedPassIsRun` turns a scripted pass into a run. The builders in `Builders.dfy` and the printers in
`Properties.dfy` range over maps in an arbitrary order and are proved equal to functions, so their output does not
depend on that order.

**Two plain descriptions** stand beside automaton and builders, and are proved to say the same. `Conversation.dfy`
writes a pass out as the calls it makes, in order, and what it returns, told by the replies. `Manifests.dfy` writes the
five objects out field by field.

## What the proofs found

- A pass that ends with neither error nor requeue means that all five children exist, for every wanted number of
  workers but zero. With zero workers a rejected create is logged and the pass reports success
  (`SilenceTrustedUnlessZero`).
- That the children exist does not mean that they are as wanted: a rejected update of the replicas is logged too, and
  goes unnoticed if the workers available are already as many as the new spec wants (`QuietWithWrongReplicas`). For a
  fixed CR, a quiet pass is sure to leave nothing to do exactly when, at the start, there is nothing to do, or workers
  are wanted and the worker Deployment does not exist yet (`QuietMeansDoneExactly`). So it can be relied on
  while the wanted workers have no Deployment yet, and not once there is something to change or repair after that.
- With everything built from one CR, the containers see what it says exactly when no key of the catalog and the
  coresite has two values; both are stored in one ConfigMap and the coresite wins. Mount paths are distinct exactly when
  no etc key reaches into the catalog directory and no worker etc key is `pre-stop.sh`.
- ConfigMaps are never updated. A Deployment's mounts resolve exactly when the CR version it was built from has no
  config key that the versions of the ConfigMaps lack (`MountsInPlaceExactly`), and its container sees the values of the
  ConfigMaps' versions, however old (`FilesAsWantedExactly`). For a new cluster and any series of edits both can be read
  off the specs (`AfterEdits`): adding a key and changing the number of workers breaks the workers
  (`AddedKeyBreaksMounts`).
- The events account for the status in every state of a run if and only if no reply to an applied status update is lost
  (`AccountedExactly`); a lost one leaves a change that no event tells (`ChangeGoesUntold`).
- A printed map reads back exactly when no key or value holds `=` or a newline.
- Readme.md:72 names another directory for the catalog than controllers/desired.go:95; the model follows the code.

## Model

| member | source | states |
|---|---|---|
| Operator.PrestoClusterController.Reconcile | controllers/controller.go:82-164 | a whole pass leaves the server, returns and announces what the automaton does under the same script, and holds the conversation written out in `Converses`; it fails if and only if a read of the inspection or its status update fails; undisturbed it ends with the job finished; if nobody else creates or deletes a child, success with workers wanted means all five exist |
| Operator.ClusterStateInspector.InspectCluster | controllers/inspector.go:56-71 | the CR is read first, in one step of the pass that fails exactly when the read does; not found leaves it nil |
| Operator.ClusterStateInspector.InspectChild | controllers/inspector.go:154-220 | one read at the role's address, one step of the pass, which fails exactly when the read does; not found leaves it nil |
| Operator.ClusterStateInspector.InspectConfigMaps | controllers/inspector.go:73-100 | catalog ConfigMap before Presto ConfigMap, stopping at the first error: the pass up to the workloads |
| Operator.ClusterStateInspector.InspectWorkloads | controllers/inspector.go:102-144 | coordinator, Service, worker in this order, stopping at the first error: the pass up to the drive step |
| Operator.ClusterStateInspector.Inspect | controllers/inspector.go:51-146 | the six reads, in their order, are the reading part of the pass; the fields hold what was read; it fails exactly when one of the reads does |
| Operator.ClusterReconciler.CreateObject | controllers/reconciler.go:122-136 | one create call and whether it failed |
| Operator.ClusterReconciler.UpdateDeployment | controllers/reconciler.go:138-152 | one update call and whether it failed |
| Operator.ClusterReconciler.DeleteObject | controllers/reconciler.go:154-169 | one delete call; already gone is no error |
| Operator.ClusterReconciler.ReconcileDeployment | controllers/reconciler.go:95-120 | makes exactly the call that desired and inspected Deployment demand |
| Operator.ClusterReconciler.ReconcileFixed | controllers/reconciler.go:258-297 | ConfigMaps and Service are created or deleted, never updated |
| Operator.ClusterReconciler.ReconcileChild | controllers/reconciler.go:57-76 | one step of the drive order with its one call, or the jump past the rest on an error |
| Operator.ClusterReconciler.Reconcile | controllers/reconciler.go:48-79 | the drive part of the pass: the calls for the five children in their order, up to the first error; nothing without a CR, nothing announced |
| Operator.ClusterStatusUpdater.CurrentDeployment | controllers/status.go:54-75 | a failed or empty read leaves the out-object untouched |
| Operator.ClusterStatusUpdater.DeriveClusterStatus | controllers/status.go:77-89 | availability of the worker Deployment, zero when the read gave nothing |
| Operator.ClusterStatusUpdater.UpdateClusterStatus | controllers/status.go:46-52 | a status update of the inspected object, with its resource version |
| Operator.ClusterStatusUpdater.UpdatePrestoClusterStatus | controllers/status.go:91-112 | the reporting part of the pass: write only a change, fail if that write fails, announce only a successful write, requeue while workers are missing |
| Operator.EventRecorder.Record | controllers/status.go:100-105 | appends one event |
| ReconcilePass.Resume | controllers/controller.go:82-164 | each move of a pass goes strictly forward, so a pass has at most thirteen moves; what the moves are is written out in `Converses` |
| ReconcilePass.AgentStep | controllers/controller.go:82-164 | a move of a pass goes forward and stays with its request |
| Conversation.PassConverses | controllers/controller.go:82-164 | every pass under every script makes exactly these calls in this order, told by the replies: six reads, the creates and updates of the five children up to the first error, a read of the workers, a status update; with what it returns and announces |
| Conversation.PassFailsExactly | controllers/controller.go:160-163 | a pass returns an error if and only if a read of its inspection or its status update gets an error |
| Names.ChildKeyInjective | controllers/utils.go:29-51 | (cluster, role) to address is injective, suffix collisions included |
| Names.OwnersAreUnique | controllers/utils.go:29-51 | no address belongs to two clusters |
| SoloRuns.CallsStayHome | controllers/inspector.go:148-220 | the inspector reads each role at the address where the drive step writes it, and no call leaves the cluster |
| SoloRuns.ActionsKeepSane | controllers/inspector.go:51-146 | what a pass remembers was read from the server's history; histories only grow |
| SoloRuns.StatusWrite | controllers/status.go:46-52 | an applied status update found exactly the inspected version, and appends it with the new count |
| Isolation.ClustersAreIsolated | main.go:51 | for every call-by-call interleaving of all clusters' passes, one cluster's addresses, results and events are those of its own moves alone |
| Isolation.OthersDoNotTouch | main.go:51 | another cluster's move changes neither this cluster's addresses nor its agent |
| Isolation.EveryInterleaving | main.go:51 | a claim about one cluster that all its own runs establish holds after every interleaving with other clusters |
| Interleavings.NobodyDeletes | controllers/reconciler.go:52-55 | in every interleaving no pass of any cluster is about to delete |
| Interleavings.QuietAmongOthers | controllers/controller.go:138-163 | in every interleaving children appear in order, and quiet passes mean a complete cluster unless no worker is wanted |
| Interleavings.TracedAmongOthers | controllers/reconciler.go:171-190 | in every interleaving each child comes from a CR version its own cluster's passes inspected, and mounts resolve if no key is added |
| Interleavings.BoundedAmongOthers | controllers/reconciler.go:48-120 | a cluster's writes made and work left add up, whatever other clusters do |
| Interleavings.EventsAmongOthers | controllers/status.go:94-107 | in every interleaving a cluster's events account for its status all along, if and only if none of its applied status updates loses its reply |
| Interleavings.ConvergesAmongOthers | controllers/controller.go:82-164 | a cluster's fault-free pass finishes its job with other clusters' passes interleaved |
| Completion.OperatorNeverDeletes | controllers/reconciler.go:52-55 | from any store, in any run, no pass is ever about to delete |
| Completion.ChildrenAppearInOrder | controllers/reconciler.go:57-76 | under faults, stale reads and hand edits: no catalog ConfigMap without the Presto ConfigMap, no coordinator Deployment without the catalog, no Service without the coordinator, no worker Deployment without the Service; and no child gets lost |
| Completion.QuiescenceMeansComplete | controllers/controller.go:138-163 | although drive errors are swallowed, and whatever others overwrite, neither error nor requeue means five children and an acknowledged status, if workers are wanted or no drive write failed |
| Completion.SilentFailure | controllers/controller.go:138-163 | a run with zero workers that ends quietly with no child at all |
| Completion.SilenceTrustedUnlessZero | controllers/status.go:108-111 | a quiet pass always means a complete cluster, for exactly the nonzero numbers of workers |
| Work.QuietWorkIsDone | controllers/controller.go:138-163 | for a fixed CR and current reads, a quiet pass without a logged drive error leaves no child missing and no replica count wrong |
| QuietPasses.QuietMeansDoneExactly | controllers/controller.go:138-163 | for a fixed CR, every quiet pass leaves all children present with the wanted replicas, if and only if they are so at the start or workers are wanted and their Deployment is missing |
| QuietPasses.QuietWithWrongReplicas | controllers/controller.go:138-141 | a run with workers wanted that ends quietly with the wrong number of replicas after one rejected update |
| Provenance.ChildrenAreTraced | controllers/reconciler.go:171-190 | in every state each child is the translation of an inspected CR version, ConfigMaps and Service are as first created, and no child is older than a ConfigMap or Service before it |
| Provenance.AnyChange | controllers/reconciler.go:95-120 | an action leaves a child, rescales or reports on its Deployment, or rebuilds it from the inspected CR version |
| MountsResolve.MountsInPlaceExactly | controllers/reconciler.go:101-112 | in every reachable state a stored Deployment's mounts resolve if and only if its CR version asks for no key that the ConfigMaps' versions lack, and its container sees exactly the files the three versions make up |
| MountsResolve.AssembledMounts | controllers/desired.go:77-113 | in any store, the mounts of a Deployment resolve if and only if the CR it is built from asks for no key that those of the ConfigMaps lack |
| MountsResolve.FilesAsWantedExactly | controllers/reconciler.go:262-290 | a stored Deployment's container sees what its CR version asks for, through the stored ConfigMaps, if and (no two mount paths being the same) only if these hold its every entry |
| MountsResolve.EveryChildMatches | controllers/desired.go:63-406 | in every state of every run each child is, field by field, what its manifest says for a version of the CR |
| MountsResolve.EveryMountResolves | controllers/reconciler.go:262-290 | if CR edits add no config key, every mount resolves in every state of every run |
| MountsResolve.TemplateFulfilled | controllers/desired.go:77-113 | which config keys the mounts of a template need |
| SpecEdits.AfterEdits | controllers/reconciler.go:95-120 | a new cluster after any series of edits with an undisturbed pass each: image, labels, mounts and files of both Deployments, which mounts are in place, and the numbers of replicas, from the specs alone |
| SpecEdits.AfterOneEdit | controllers/reconciler.go:101-112 | after one edit the workers' mounts are in place if and only if the number of workers is the same or no key is new; when they see the new spec's files |
| SpecEdits.AddedKeyBreaksMounts | controllers/reconciler.go:262-290 | a fault-free run in which an added key leaves a worker mount without its key |
| Work.WorkIsConserved | controllers/reconciler.go:48-120 | per child, writes made plus work left is constant in every run with a fixed CR and current reads, through any faults |
| Work.BoundedWork | controllers/reconciler.go:48-120 | at most one write per child and five in all; the work left never grows |
| Work.DriveWritesAreAccepted | controllers/reconciler.go:122-152 | in such runs no create meets an existing child and no update a missing one |
| Work.DriveMeetsNeed | controllers/reconciler.go:101-112 | the drive step calls exactly when the child is missing or has the wrong replicas |
| Work.DriveCallConforms | controllers/reconciler.go:95-120 | the call for a child makes it exist exactly if desired, with the desired replicas, and is left out exactly where that is so already |
| Work.PassesKeepSpec | controllers/status.go:46-52 | no pass changes the spec of a CR |
| Convergence.CleanPassConcludes | controllers/controller.go:82-164 | the whole effect of an undisturbed pass, from any children with any replica counts, and its result |
| Convergence.CleanPassConverges | controllers/controller.go:82-164 | one undisturbed pass ends with five children, one coordinator, the wanted workers and a true status |
| Convergence.CleanPassFixpoints | controllers/reconciler.go:95-120 | an undisturbed pass writes nothing if and only if the job is done |
| Convergence.SecondPassWritesNothing | controllers/status.go:91-112 | a second undisturbed pass writes nothing |
| EventChain.LinkedUnlessLost | controllers/status.go:94-107 | an action keeps the account of the status complete if and only if it does not lose the reply to an applied status update |
| EventChain.AccountedExactly | controllers/status.go:94-107 | in every state of a run the events account for the status, if and only if no action of the run loses the reply to an applied status update |
| EventChain.ChangeGoesUntold | controllers/status.go:94-98 | a legal run that changes the status and announces nothing |
| EventChain.EventsAccountForStatus | controllers/status.go:94-107 | over a CR's life the events link up from the initial count and their differences add up to the stored status |
| ScriptedPass.ScriptedPassIsRun | controllers/controller.go:82-164 | a pass under a script is a run, so what every run keeps every pass keeps |
| ScriptedPass.InspectionFailsOnlyOnFaults | controllers/inspector.go:60-65 | inspection fails if and only if one of its reads fails; not found is no failure |
| Desired.DesiredChild | controllers/desired.go:63-406 | the object of each role, addressed where the role belongs |
| Manifests.ManifestExactly | controllers/desired.go:63-406 | an object is the one the operator builds, up to replicas and status, if and only if it meets the manifest written out field by field |
| Builders.GetDesiredClusterState | controllers/desired.go:47-60 | the builders give the desired state whatever order the maps yield |
| Builders.GetDesiredPrestoConfigMap | controllers/desired.go:370-386 | prefixed etc files of both containers and the pre-stop hook, and no other key |
| Builders.GetDesiredCatalogConfigMap | controllers/desired.go:389-406 | catalog entries, overridden by coresite entries, and no other key, in any range order |
| Builders.GetDesiredCoordinatorDeployment | controllers/desired.go:63-179 | the coordinator Deployment of the manifest: one replica, no hook, mounts in ascending order |
| Builders.GetDesiredCoordinatorService | controllers/desired.go:182-216 | the Service of the manifest, named as the CR |
| Builders.GetDesiredWorkerDeployment | controllers/desired.go:219-353 | the worker Deployment of the manifest: the CR's image and number of workers, the hook first, etc files read-only, mounts in ascending order |
| Builders.AppendMounts | controllers/desired.go:72-83 | one mount per key in ascending byte order, appended to those before |
| Builders.AddPrefixed | controllers/desired.go:377-382 | every entry under its prefixed key, in any range order |
| Strings.IterationOrderIrrelevant | controllers/desired.go:72-76 | every enumeration of a map's keys sorts to the same list |
| Strings.SortedUnique | controllers/desired.go:76 | a multiset of strings has one sorted listing |
| Strings.LeqIsLexicographic | controllers/desired.go:76 | the order of the sort is that of the dictionary: prefixes first, then the smaller byte where two strings first differ |
| Strings.OrderedKeysAscend | controllers/desired.go:76 | the sorted keys are the one list of all keys that ascends in it |
| Files.ContainerSees | controllers/desired.go:69-114 | which files a container sees, whatever specs its Deployment and the two ConfigMaps were built from |
| Files.TranslationFaithful | controllers/desired.go:225-277 | with all built from one CR, a container sees exactly the files of the CR (workers also the hook) if and only if shared catalog and coresite keys agree |
| Files.ServedAsWanted | controllers/desired.go:370-405 | with older ConfigMaps it does if they have every entry it asks for and, where no two mount paths are the same, only then |
| Files.ClashHidesStaleness | controllers/desired.go:225-276 | only then fails where an etc file has the hook's name: the hook's file hides the missing one |
| Files.CoordinatorPathsDistinct | controllers/desired.go:77-113 | the coordinator's mount paths are distinct if and only if no etc key reaches into the catalog directory |
| Files.WorkerPathsDistinct | controllers/desired.go:225-276 | the same for the workers, where the hook's name must be free too |
| Files.SlashFreeKeysNeverClash | controllers/desired.go:80 | keys without a slash cannot reach into the catalog directory |
| Files.HookRunsTheScript | controllers/desired.go:313-323 | the workers alone have a pre-stop hook; its command runs a file that is mounted and holds the script, whatever the age of the ConfigMaps |
| Files.Routing | controllers/desired.go:188-191 | a Service selects exactly its own coordinator's pods in its own namespace, a Deployment its own; no two Deployments' selectors overlap |
| Properties.GetProperties | controllers/utils.go:54-67 | one key=value line per entry, keys in ascending byte order, whatever the range order |
| Properties.PrintedExactly | controllers/utils.go:54-67 | the printed text is the one made of a line per key in ascending order |
| Properties.PrintThenRead | controllers/utils.go:54-107 | reading a printed map gives it back if and only if no key or value holds = or a newline |
| Properties.PrintingIsInjective | controllers/utils.go:54-67 | different such maps print differently |
| Properties.GetPropertiesFields | controllers/utils.go:70-77 | one line per whitespace-separated token |
| Properties.FieldsExactly | controllers/utils.go:71 | the fields of a text are the one sequence of tokens that, with white gaps around and between them, makes up the text |
| Properties.FieldsNormalForm | controllers/utils.go:70-77 | idempotent, keeps the tokens, and two inputs print alike if and only if their tokens are equal |
| Properties.GetPropertiesStrings | controllers/utils.go:80-87 | the input and a newline |
| Properties.DynamicArgsExactly | controllers/utils.go:98-107 | succeeds if and only if = occurs once, and then key, = and value make up the input |
| Properties.DynamicConfigsExactly | controllers/utils.go:109-118 | the same for : |
| Properties.DynamicConfigsArgsRejoin | controllers/utils.go:120-123 | joining the parts gives the input back; no part holds a semicolon |
| Properties.JoinThenSplit | controllers/utils.go:120-123 | splitting gives back any joined parts that hold no separator |

## Left out

- Nil maps of the spec are not told apart from empty ones: the operator only ranges over them.
- Resources, pull policy, ports, security context and owner references are constant or copied and appear in no property.
- Garbage collection by owner references, and the server's own validation of names and objects, show up only as foreign deletions and as rejected calls.
- `workers` is never absent, as config/crd/bases/prestooperator.k8s.io_prestoclusters.yaml:129-134 requires it; the dereference of an absent value is not modelled.
- Kinds of the API server share one object type; a read at an address is taken to return that address's kind, which every run keeps true.
- Logging, and the length of the requeue delay.
- The texts of the pre-stop script and of core-site.xml, which are opaque.
- `createIngress`, `deleteIngress`, `requeueResult` and `getPodsPrefix`, which nothing calls.
- Manager start-up, flags, scheme registration, leader election, and the generated deep copies, taken as value copies.
- Invalid UTF-8 in strings, which Go's formatting and field splitting treat byte by byte.

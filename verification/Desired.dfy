// The translation of a PrestoCluster into its five children: what each child
// is.
module Desired {
  import opened Kubernetes
  import opened Names
  import opened Strings

  // The text of the pre-stop hook; nothing here depends on what it says.
  const PRE_STOP_SCRIPT: string := "<pre-stop hook>"

  const PRE_STOP_KEY: string := "pre-stop.sh"
  const ETC_DIR: string := "/usr/lib/presto/etc/"
  const CATALOG_DIR: string := "/usr/lib/presto/etc/catalog/"
  const TMP_DIR: string := "/tmp/"
  const COORDINATOR_PREFIX: string := "coordinator."
  const WORKER_PREFIX: string := "worker."

  // One optional object per role: the shape of both the inspected children
  // and the desired ones.
  datatype Children = Children(
    prestoConfigMap: Option<Object>,
    catalogConfigMap: Option<Object>,
    coordinatorDeployment: Option<Object>,
    coordinatorService: Option<Object>,
    workerDeployment: Option<Object>)
  {
    function Child(r: Role): Option<Object> {
      match r
      case PrestoConfigMap => prestoConfigMap
      case CatalogConfigMap => catalogConfigMap
      case CoordinatorDeployment => coordinatorDeployment
      case CoordinatorService => coordinatorService
      case WorkerDeployment => workerDeployment
    }

    function With(r: Role, o: Option<Object>): (c: Children)
      ensures forall q :: c.Child(q) == if q == r then o else Child(q)
    {
      match r
      case PrestoConfigMap => this.(prestoConfigMap := o)
      case CatalogConfigMap => this.(catalogConfigMap := o)
      case CoordinatorDeployment => this.(coordinatorDeployment := o)
      case CoordinatorService => this.(coordinatorService := o)
      case WorkerDeployment => this.(workerDeployment := o)
    }
  }

  const NO_CHILDREN: Children := Children(None, None, None, None, None)

  // ---- ConfigMap data ----

  ghost function PrefixedKeys(prefix: string, keys: set<string>): set<string> {
    set k | k in keys :: prefix + k
  }

  lemma PrefixedKey(prefix: string, keys: set<string>, q: string)
    ensures q in PrefixedKeys(prefix, keys) <==>
            |prefix| <= |q| && q[..|prefix|] == prefix && q[|prefix|..] in keys
  {
    if q in PrefixedKeys(prefix, keys) {
      var k :| k in keys && q == prefix + k;
      assert q[|prefix|..] == k;
    }
    if |prefix| <= |q| && q[..|prefix|] == prefix && q[|prefix|..] in keys {
      assert q == prefix + q[|prefix|..];
    }
  }

  // m with every key prefixed.
  ghost function Prefixed(prefix: string, m: map<string, string>): map<string, string> {
    map q | q in PrefixedKeys(prefix, m.Keys) :: (PrefixedKey(prefix, m.Keys, q); m[q[|prefix|..]])
  }

  ghost function PrestoData(spec: ClusterSpec): map<string, string> {
    Prefixed(COORDINATOR_PREFIX, spec.coordinatorEtc) + Prefixed(WORKER_PREFIX, spec.workerEtc)
      + map[PRE_STOP_KEY := PRE_STOP_SCRIPT]
  }

  ghost function CatalogData(spec: ClusterSpec): map<string, string> {
    spec.catalog + spec.coresite
  }

  lemma PrefixedEmpty(prefix: string)
    ensures Prefixed(prefix, map[]) == map[]
  {
  }

  lemma PrefixedInsert(prefix: string, m: map<string, string>, k: string, v: string)
    ensures Prefixed(prefix, m[k := v]) == Prefixed(prefix, m)[prefix + k := v]
  {
    forall q
      ensures q in PrefixedKeys(prefix, m.Keys) <==>
              |prefix| <= |q| && q[..|prefix|] == prefix && q[|prefix|..] in m
    {
      PrefixedKey(prefix, m.Keys, q);
      PrefixedKey(prefix, m[k := v].Keys, q);
    }
    assert (prefix + k)[|prefix|..] == k;
    forall q | q in PrefixedKeys(prefix, m.Keys) && q != prefix + k ensures q[|prefix|..] != k {
      assert q == prefix + q[|prefix|..];
    }
    assert Prefixed(prefix, m[k := v]).Keys == Prefixed(prefix, m)[prefix + k := v].Keys by {
      assert m[k := v].Keys == m.Keys + {k};
    }
  }

  // ---- Volumes and mounts ----

  function ConfigVolumes(cluster: string): seq<Volume> {
    [Volume("config", PrestoConfigMapName(cluster)), Volume("catalog", CatalogConfigMapName(cluster))]
  }

  function MountAll(keys: seq<string>, volume: string, dir: string, prefix: string, readOnly: bool): seq<VolumeMount> {
    seq(|keys|, i requires 0 <= i < |keys| => VolumeMount(volume, dir + keys[i], prefix + keys[i], readOnly))
  }

  ghost function EtcMounts(etc: map<string, string>, prefix: string, readOnly: bool): seq<VolumeMount> {
    MountAll(OrderedKeys(etc.Keys), "config", ETC_DIR, prefix, readOnly)
  }

  ghost function CatalogMounts(spec: ClusterSpec): seq<VolumeMount> {
    MountAll(OrderedKeys(spec.catalog.Keys), "catalog", CATALOG_DIR, "", false)
  }

  ghost function CoresiteMounts(spec: ClusterSpec): seq<VolumeMount> {
    MountAll(OrderedKeys(spec.coresite.Keys), "catalog", TMP_DIR, "", false)
  }

  const PRE_STOP_MOUNT: VolumeMount := VolumeMount("config", ETC_DIR + PRE_STOP_KEY, PRE_STOP_KEY, false)

  ghost function CoordinatorMounts(spec: ClusterSpec): seq<VolumeMount> {
    EtcMounts(spec.coordinatorEtc, COORDINATOR_PREFIX, false) + CatalogMounts(spec) + CoresiteMounts(spec)
  }

  ghost function WorkerMounts(spec: ClusterSpec): seq<VolumeMount> {
    [PRE_STOP_MOUNT] + EtcMounts(spec.workerEtc, WORKER_PREFIX, true) + CatalogMounts(spec) + CoresiteMounts(spec)
  }

  // ---- The five children ----

  function CoordinatorLabels(cluster: string): map<string, string> {
    map["app" := "presto-coordinator", "controller" := cluster]
  }

  function WorkerLabels(cluster: string): map<string, string> {
    map["app" := "presto-worker", "controller" := cluster]
  }

  function ServiceLabels(cluster: string): map<string, string> {
    map["app" := "presto-coordinator-service", "controller" := cluster]
  }

  function NewConfigMap(cl: Cluster, name: string, data: map<string, string>): Object {
    ConfigMap(cl.namespace, name, data)
  }

  ghost function CoordinatorTemplate(cl: Cluster): PodTemplate {
    PodTemplate(CoordinatorLabels(cl.name), "presto-coordinator", cl.spec.image,
                CoordinatorMounts(cl.spec), ConfigVolumes(cl.name), [])
  }

  ghost function WorkerTemplate(cl: Cluster): PodTemplate {
    PodTemplate(WorkerLabels(cl.name), "presto-worker", cl.spec.image,
                WorkerMounts(cl.spec), ConfigVolumes(cl.name), ["/bin/sh", ETC_DIR + PRE_STOP_KEY])
  }

  predicate IsDeployment(r: Role) {
    r == CoordinatorDeployment || r == WorkerDeployment
  }

  // The pods of a Deployment role.
  ghost function TemplateOf(cl: Cluster, r: Role): PodTemplate
    requires IsDeployment(r)
  {
    if r == CoordinatorDeployment then CoordinatorTemplate(cl) else WorkerTemplate(cl)
  }

  // What the operator wants a role's object to be for this version of the CR.
  ghost function DesiredChild(cl: Cluster, r: Role): (o: Object)
    ensures KeyOf(o) == ChildKey(Request(cl.namespace, cl.name), r)
  {
    match r
    case PrestoConfigMap => NewConfigMap(cl, PrestoConfigMapName(cl.name), PrestoData(cl.spec))
    case CatalogConfigMap => NewConfigMap(cl, CatalogConfigMapName(cl.name), CatalogData(cl.spec))
    case CoordinatorDeployment =>
      Deployment(cl.namespace, CoordinatorDeploymentName(cl.name), CoordinatorLabels(cl.name), 1,
                 CoordinatorLabels(cl.name), CoordinatorTemplate(cl), 0)
    case CoordinatorService =>
      Service(cl.namespace, cl.name, ServiceLabels(cl.name), CoordinatorLabels(cl.name))
    case WorkerDeployment =>
      Deployment(cl.namespace, WorkerDeploymentName(cl.name), WorkerLabels(cl.name), cl.spec.workers,
                 WorkerLabels(cl.name), WorkerTemplate(cl), 0)
  }

  // Everything when the cluster exists, nothing when it does not.
  ghost function DesiredState(cluster: Option<Cluster>): Children {
    match cluster
    case None => NO_CHILDREN
    case Some(cl) =>
      Children(
        Some(DesiredChild(cl, PrestoConfigMap)),
        Some(DesiredChild(cl, CatalogConfigMap)),
        Some(DesiredChild(cl, CoordinatorDeployment)),
        Some(DesiredChild(cl, CoordinatorService)),
        Some(DesiredChild(cl, WorkerDeployment)))
  }

  lemma DesiredRole(cluster: Option<Cluster>, r: Role)
    ensures DesiredState(cluster).Child(r) == if cluster.None? then None else Some(DesiredChild(cluster.value, r))
  {
    hide DesiredChild, ChildKey;
  }

  // The number of replicas a role's Deployment should have.
  function WantedReplicas(spec: ClusterSpec, r: Role): int32 {
    match r
    case CoordinatorDeployment => 1
    case WorkerDeployment => spec.workers
    case _ => 0
  }

  lemma DesiredShape(cl: Cluster, r: Role)
    ensures ReplicasOf(DesiredChild(cl, r)) == WantedReplicas(cl.spec, r)
    ensures DesiredChild(cl, r).Deployment? <==> IsDeployment(r)
    ensures !DesiredChild(cl, r).PrestoCluster?
    ensures AvailableOf(Some(DesiredChild(cl, r))) == 0
  {
    hide CoordinatorTemplate, WorkerTemplate, PrestoData, ChildKey;
  }

  // Equal up to what scaling and status reports change in a Deployment.
  predicate SameBuild(o: Object, d: Object) {
    if o.Deployment? && d.Deployment? then
      o.(replicas := 0, available := 0) == d.(replicas := 0, available := 0)
    else o == d
  }
}

// The Kubernetes objects the operator reads and writes, reduced to the fields
// that its code builds, compares or copies.
module Kubernetes {

  datatype Option<+T> = None | Some(value: T)

  type int32 = n: int | -0x8000_0000 <= n < 0x8000_0000

  datatype Kind = PrestoClusterKind | ConfigMapKind | DeploymentKind | ServiceKind

  // The address of an object in the API server.
  datatype Key = Key(kind: Kind, namespace: string, name: string)

  // The address of a PrestoCluster, as a reconcile request carries it.
  datatype Request = Request(namespace: string, name: string)

  // A nil map of the Go type and an empty one are both the empty map here:
  // the operator only ranges over them.
  datatype ClusterSpec = ClusterSpec(
    name: string,
    image: string,
    workers: int32,
    coordinatorEtc: map<string, string>,
    workerEtc: map<string, string>,
    catalog: map<string, string>,
    coresite: map<string, string>)

  datatype Cluster = Cluster(
    namespace: string,
    name: string,
    resourceVersion: nat,
    spec: ClusterSpec,
    availableWorkers: int32)

  datatype VolumeMount = VolumeMount(volume: string, path: string, subPath: string, readOnly: bool)

  // A volume whose source is a ConfigMap of the pod's own namespace.
  datatype Volume = Volume(name: string, configMap: string)

  datatype PodTemplate = PodTemplate(
    labels: map<string, string>,
    container: string,
    image: string,
    mounts: seq<VolumeMount>,
    volumes: seq<Volume>,
    preStop: seq<string>)

  datatype Object =
    | PrestoCluster(cluster: Cluster)
    | ConfigMap(namespace: string, name: string, data: map<string, string>)
    | Deployment(namespace: string, name: string, labels: map<string, string>, replicas: int32,
                 selector: map<string, string>, template: PodTemplate, available: int32)
    | Service(namespace: string, name: string, labels: map<string, string>, selector: map<string, string>)

  function KeyOf(o: Object): Key {
    match o
    case PrestoCluster(c) => Key(PrestoClusterKind, c.namespace, c.name)
    case ConfigMap(ns, n, _) => Key(ConfigMapKind, ns, n)
    case Deployment(ns, n, _, _, _, _, _) => Key(DeploymentKind, ns, n)
    case Service(ns, n, _, _) => Key(ServiceKind, ns, n)
  }

  // spec.replicas of a Deployment; objects of other kinds have none.
  function ReplicasOf(o: Object): int32 {
    if o.Deployment? then o.replicas else 0
  }

  // status.availableReplicas, zero where the Get left the out-object untouched.
  function AvailableOf(o: Option<Object>): int32 {
    if o.Some? && o.value.Deployment? then o.value.available else 0
  }
}

// The builders of the five children: they range over unordered maps, and yield
// the same objects whatever the order.
module Builders {
  import opened Kubernetes
  import opened Names
  import opened Strings
  import opened Desired
  import opened Manifests

  // data[prefix + key] = value, for every entry of m in any order.
  method AddPrefixed(data: map<string, string>, prefix: string, m: map<string, string>)
    returns (r: map<string, string>)
    ensures r == data + Prefixed(prefix, m)
  {
    PrefixedEmpty(prefix);
    hide Prefixed;
    r := data;
    var rest := m.Keys;
    ghost var done: map<string, string> := map[];
    while rest != {}
      invariant rest <= m.Keys
      invariant done.Keys == m.Keys - rest && forall k <- done :: done[k] == m[k]
      invariant r == data + Prefixed(prefix, done)
      decreases rest
    {
      var k :| k in rest;
      r := r[prefix + k := m[k]];
      PrefixedInsert(prefix, done, k, m[k]);
      done := done[k := m[k]];
      rest := rest - {k};
    }
    assert done == m;
  }

  // data[key] = value, for every entry of m in any order.
  method AddAll(data: map<string, string>, m: map<string, string>) returns (r: map<string, string>)
    ensures r == data + m
  {
    r := data;
    var rest := m.Keys;
    while rest != {}
      invariant rest <= m.Keys
      invariant r == data + (map k | k in m && k !in rest :: m[k])
      decreases rest
    {
      var k :| k in rest;
      r := r[k := m[k]];
      rest := rest - {k};
    }
    assert (map k | k in m && k !in rest :: m[k]) == m;
  }

  // Appends one mount per key of m, in ascending key order.
  method AppendMounts(mounts: seq<VolumeMount>, m: map<string, string>, volume: string, dir: string,
                      prefix: string, readOnly: bool)
    returns (r: seq<VolumeMount>)
    ensures r == mounts + MountAll(OrderedKeys(m.Keys), volume, dir, prefix, readOnly)
    ensures |mounts| <= |r| && MountsOf(r[|mounts|..], m, volume, dir, prefix, readOnly)
  {
    var keys := SortedKeys(m);
    r := mounts;
    for i := 0 to |keys|
      invariant r == mounts + MountAll(keys[..i], volume, dir, prefix, readOnly)
    {
      r := r + [VolumeMount(volume, dir + keys[i], prefix + keys[i], readOnly)];
    }
    assert keys[..|keys|] == keys;
    var added := MountAll(keys, volume, dir, prefix, readOnly);
    assert r[|mounts|..] == added;
    OneListing(added, m, volume, dir, prefix, readOnly);
  }

  method GetDesiredPrestoConfigMap(cl: Cluster) returns (o: Object)
    ensures o == DesiredChild(cl, PrestoConfigMap)
    ensures Manifest(Request(cl.namespace, cl.name), PrestoConfigMap, cl.spec, o)
  {
    hide Manifest;
    hide Prefixed, PrestoConfigMapName;
    var data := AddPrefixed(map[], COORDINATOR_PREFIX, cl.spec.coordinatorEtc);
    data := AddPrefixed(data, WORKER_PREFIX, cl.spec.workerEtc);
    data := data[PRE_STOP_KEY := PRE_STOP_SCRIPT];
    assert data == PrestoData(cl.spec);
    o := NewConfigMap(cl, PrestoConfigMapName(cl.name), data);
    ManifestExactly(cl, PrestoConfigMap, o);
  }

  method GetDesiredCatalogConfigMap(cl: Cluster) returns (o: Object)
    ensures o == DesiredChild(cl, CatalogConfigMap)
    ensures Manifest(Request(cl.namespace, cl.name), CatalogConfigMap, cl.spec, o)
  {
    hide Manifest, CoordinatorTemplate, WorkerTemplate, PrestoData, CatalogConfigMapName;
    var data := AddAll(map[], cl.spec.catalog);
    assert data == cl.spec.catalog;
    data := AddAll(data, cl.spec.coresite);
    o := NewConfigMap(cl, CatalogConfigMapName(cl.name), data);
    ManifestExactly(cl, CatalogConfigMap, o);
  }

  method GetDesiredCoordinatorDeployment(cl: Cluster) returns (o: Object)
    ensures o == DesiredChild(cl, CoordinatorDeployment)
    ensures Manifest(Request(cl.namespace, cl.name), CoordinatorDeployment, cl.spec, o)
    ensures ReplicasOf(o) == 1
  {
    hide Manifest, MountsOf, MountAll, OrderedKeys;
    var labels := map["app" := "presto-coordinator", "controller" := cl.name];
    var mounts := AppendMounts([], cl.spec.coordinatorEtc, "config", ETC_DIR, COORDINATOR_PREFIX, false);
    mounts := AppendMounts(mounts, cl.spec.catalog, "catalog", CATALOG_DIR, "", false);
    mounts := AppendMounts(mounts, cl.spec.coresite, "catalog", TMP_DIR, "", false);
    assert mounts == CoordinatorMounts(cl.spec);
    o := Deployment(cl.namespace, cl.name + "-coordinator", labels, 1, labels,
                    PodTemplate(labels, "presto-coordinator", cl.spec.image, mounts, ConfigVolumes(cl.name), []), 0);
    ManifestExactly(cl, CoordinatorDeployment, o);
  }

  method GetDesiredCoordinatorService(cl: Cluster) returns (o: Object)
    ensures o == DesiredChild(cl, CoordinatorService)
    ensures Manifest(Request(cl.namespace, cl.name), CoordinatorService, cl.spec, o)
  {
    hide Manifest;
    var labels := map["app" := "presto-coordinator-service", "controller" := cl.name];
    var selectorLabels := map["app" := "presto-coordinator", "controller" := cl.name];
    o := Service(cl.namespace, cl.name, labels, selectorLabels);
    ManifestExactly(cl, CoordinatorService, o);
  }

  method GetDesiredWorkerDeployment(cl: Cluster) returns (o: Object)
    ensures o == DesiredChild(cl, WorkerDeployment)
    ensures Manifest(Request(cl.namespace, cl.name), WorkerDeployment, cl.spec, o)
    ensures ReplicasOf(o) == cl.spec.workers
  {
    hide Manifest, MountsOf, MountAll, OrderedKeys;
    var labels := map["app" := "presto-worker", "controller" := cl.name];
    var mounts := [VolumeMount("config", ETC_DIR + PRE_STOP_KEY, PRE_STOP_KEY, false)];
    mounts := AppendMounts(mounts, cl.spec.workerEtc, "config", ETC_DIR, WORKER_PREFIX, true);
    mounts := AppendMounts(mounts, cl.spec.catalog, "catalog", CATALOG_DIR, "", false);
    mounts := AppendMounts(mounts, cl.spec.coresite, "catalog", TMP_DIR, "", false);
    assert mounts == WorkerMounts(cl.spec);
    o := Deployment(cl.namespace, cl.name + "-worker", labels, cl.spec.workers, labels,
                    PodTemplate(labels, "presto-worker", cl.spec.image, mounts, ConfigVolumes(cl.name),
                                ["/bin/sh", ETC_DIR + PRE_STOP_KEY]), 0);
    ManifestExactly(cl, WorkerDeployment, o);
  }

  // The result is a function of the cluster, whatever order the maps yield.
  method GetDesiredClusterState(cluster: Option<Cluster>) returns (d: Children)
    ensures d == DesiredState(cluster)
  {
    if cluster.None? {
      return NO_CHILDREN;
    }
    var cl := cluster.value;
    var prestoConfigMap := GetDesiredPrestoConfigMap(cl);
    var catalogConfigMap := GetDesiredCatalogConfigMap(cl);
    var coordinatorDeployment := GetDesiredCoordinatorDeployment(cl);
    var coordinatorService := GetDesiredCoordinatorService(cl);
    var workerDeployment := GetDesiredWorkerDeployment(cl);
    d := Children(Some(prestoConfigMap), Some(catalogConfigMap), Some(coordinatorDeployment),
                  Some(coordinatorService), Some(workerDeployment));
  }
}

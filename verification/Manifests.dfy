// The objects of a cluster written out field by field, and that the operator
// builds these and no others.
module Manifests {
  import opened Kubernetes
  import opened Names
  import opened Strings
  import opened Desired
  import opened Files

  // One mount per key of m, in ascending order of the keys.
  ghost predicate MountsOf(mounts: seq<VolumeMount>, m: map<string, string>, volume: string, dir: string,
                           prefix: string, readOnly: bool)
  {
    exists keys: seq<string> ::
      && Ascending(keys) && (forall k :: k in m <==> k in keys) && |mounts| == |keys|
      && forall i :: 0 <= i < |keys| ==> mounts[i] == VolumeMount(volume, dir + keys[i], prefix + keys[i], readOnly)
  }

  // The mounts of the etc files, then of the catalog, then of the coresite.
  ghost predicate ConfigMounts(mounts: seq<VolumeMount>, etc: map<string, string>, prefix: string, readOnly: bool,
                               spec: ClusterSpec)
  {
    exists a, b, c ::
      && mounts == a + b + c
      && MountsOf(a, etc, "config", "/usr/lib/presto/etc/", prefix, readOnly)
      && MountsOf(b, spec.catalog, "catalog", "/usr/lib/presto/etc/catalog/", "", false)
      && MountsOf(c, spec.coresite, "catalog", "/tmp/", "", false)
  }

  ghost predicate ServerPods(t: PodTemplate, app: string, cluster: string, spec: ClusterSpec) {
    && t.labels == map["app" := app, "controller" := cluster] && t.container == app && t.image == spec.image
    && t.volumes == [Volume("config", cluster + "-presto-configmap"), Volume("catalog", cluster + "-catalog-configmap")]
  }

  // The coordinator has no pre-stop hook.
  ghost predicate CoordinatorPods(t: PodTemplate, cluster: string, spec: ClusterSpec) {
    && ServerPods(t, "presto-coordinator", cluster, spec)
    && t.preStop == [] && ConfigMounts(t.mounts, spec.coordinatorEtc, "coordinator.", false, spec)
  }

  // The workers' hook is mounted first; their etc files are read-only.
  ghost predicate WorkerPods(t: PodTemplate, cluster: string, spec: ClusterSpec) {
    && ServerPods(t, "presto-worker", cluster, spec)
    && t.preStop == ["/bin/sh", "/usr/lib/presto/etc/pre-stop.sh"]
    && t.mounts != []
    && t.mounts[0] == VolumeMount("config", "/usr/lib/presto/etc/pre-stop.sh", "pre-stop.sh", false)
    && ConfigMounts(t.mounts[1..], spec.workerEtc, "worker.", true, spec)
  }

  predicate Holds(data: map<string, string>, key: string, value: string) {
    key in data && data[key] == value
  }

  // An entry of the Presto ConfigMap.
  ghost predicate PrestoEntry(spec: ClusterSpec, key: string, value: string) {
    || (exists k <- spec.coordinatorEtc :: key == "coordinator." + k && value == spec.coordinatorEtc[k])
    || (exists k <- spec.workerEtc :: key == "worker." + k && value == spec.workerEtc[k])
    || (key == "pre-stop.sh" && value == PRE_STOP_SCRIPT)
  }

  // An entry of the catalog ConfigMap: the coresite's value wins.
  ghost predicate CatalogEntry(spec: ClusterSpec, key: string, value: string) {
    || (key in spec.coresite && value == spec.coresite[key])
    || (key !in spec.coresite && key in spec.catalog && value == spec.catalog[key])
  }

  // The object of role r of the cluster c, but for a Deployment's replicas and
  // status.
  ghost predicate Manifest(c: Request, r: Role, spec: ClusterSpec, o: Object) {
    match r
    case PrestoConfigMap =>
      && o.ConfigMap? && o.namespace == c.namespace && o.name == c.name + "-presto-configmap"
      && forall key, value :: Holds(o.data, key, value) <==> PrestoEntry(spec, key, value)
    case CatalogConfigMap =>
      && o.ConfigMap? && o.namespace == c.namespace && o.name == c.name + "-catalog-configmap"
      && forall key, value :: Holds(o.data, key, value) <==> CatalogEntry(spec, key, value)
    case CoordinatorDeployment =>
      && o.Deployment? && o.namespace == c.namespace && o.name == c.name + "-coordinator"
      && o.labels == o.selector == map["app" := "presto-coordinator", "controller" := c.name]
      && CoordinatorPods(o.template, c.name, spec)
    case CoordinatorService =>
      && o.Service? && o.namespace == c.namespace && o.name == c.name
      && o.labels == map["app" := "presto-coordinator-service", "controller" := c.name]
      && o.selector == map["app" := "presto-coordinator", "controller" := c.name]
    case WorkerDeployment =>
      && o.Deployment? && o.namespace == c.namespace && o.name == c.name + "-worker"
      && o.labels == o.selector == map["app" := "presto-worker", "controller" := c.name]
      && WorkerPods(o.template, c.name, spec)
  }

  // ---- The manifest says everything ----

  lemma OneListing(mounts: seq<VolumeMount>, m: map<string, string>, volume: string, dir: string, prefix: string,
                   readOnly: bool)
    ensures MountsOf(mounts, m, volume, dir, prefix, readOnly)
            <==> mounts == MountAll(OrderedKeys(m.Keys), volume, dir, prefix, readOnly)
  {
    hide Ascending, OrderedKeys;
    if keys: seq<string> :|
      && Ascending(keys) && (forall k :: k in m <==> k in keys) && |mounts| == |keys|
      && forall i :: 0 <= i < |keys| ==> mounts[i] == VolumeMount(volume, dir + keys[i], prefix + keys[i], readOnly)
    {
      OrderedKeysAscend(keys, m.Keys);
    }
    var keys := OrderedKeys(m.Keys);
    OrderedKeysAscend(keys, m.Keys);
  }

  lemma GroupsInOrder(mounts: seq<VolumeMount>, etc: map<string, string>, prefix: string, readOnly: bool,
                      spec: ClusterSpec)
    ensures ConfigMounts(mounts, etc, prefix, readOnly, spec)
            <==> mounts == EtcMounts(etc, prefix, readOnly) + CatalogMounts(spec) + CoresiteMounts(spec)
  {
    hide MountsOf, MountAll, OrderedKeys;
    forall some
      ensures MountsOf(some, etc, "config", "/usr/lib/presto/etc/", prefix, readOnly)
              <==> some == EtcMounts(etc, prefix, readOnly)
      ensures MountsOf(some, spec.catalog, "catalog", "/usr/lib/presto/etc/catalog/", "", false)
              <==> some == CatalogMounts(spec)
      ensures MountsOf(some, spec.coresite, "catalog", "/tmp/", "", false) <==> some == CoresiteMounts(spec)
    {
      OneListing(some, etc, "config", ETC_DIR, prefix, readOnly);
      OneListing(some, spec.catalog, "catalog", CATALOG_DIR, "", false);
      OneListing(some, spec.coresite, "catalog", TMP_DIR, "", false);
    }
    var a, b, c := EtcMounts(etc, prefix, readOnly), CatalogMounts(spec), CoresiteMounts(spec);
    hide EtcMounts, CatalogMounts, CoresiteMounts;
    if mounts == a + b + c {
      assert MountsOf(a, etc, "config", "/usr/lib/presto/etc/", prefix, readOnly);
    }
  }

  lemma CoordinatorPodsExactly(cl: Cluster, t: PodTemplate)
    ensures CoordinatorPods(t, cl.name, cl.spec) <==> t == CoordinatorTemplate(cl)
  {
    hide ConfigMounts, EtcMounts, CatalogMounts, CoresiteMounts;
    GroupsInOrder(t.mounts, cl.spec.coordinatorEtc, "coordinator.", false, cl.spec);
  }

  lemma WorkerPodsExactly(cl: Cluster, t: PodTemplate)
    ensures WorkerPods(t, cl.name, cl.spec) <==> t == WorkerTemplate(cl)
  {
    hide ConfigMounts, EtcMounts, CatalogMounts, CoresiteMounts;
    var a, b, c := EtcMounts(cl.spec.workerEtc, "worker.", true), CatalogMounts(cl.spec), CoresiteMounts(cl.spec);
    assert WorkerMounts(cl.spec) == [PRE_STOP_MOUNT] + (a + b + c);
    assert ETC_DIR + PRE_STOP_KEY == "/usr/lib/presto/etc/pre-stop.sh";
    assert WorkerMounts(cl.spec)[0] == PRE_STOP_MOUNT;
    if t.mounts != [] {
      GroupsInOrder(t.mounts[1..], cl.spec.workerEtc, "worker.", true, cl.spec);
      assert t.mounts == [t.mounts[0]] + t.mounts[1..];
      assert WorkerMounts(cl.spec)[1..] == a + b + c;
    }
  }

  // One map has these entries.
  lemma SameEntries(m: map<string, string>, n: map<string, string>)
    requires forall key, value :: Holds(m, key, value) <==> Holds(n, key, value)
    ensures m == n
  {
    forall key ensures (key in m <==> key in n) && (key in m ==> m[key] == n[key]) {
      assert key in m ==> Holds(m, key, m[key]);
      assert key in n ==> Holds(n, key, n[key]);
    }
  }

  lemma PrefixedEntries(prefix: string, m: map<string, string>, key: string, value: string)
    ensures key in Prefixed(prefix, m) && Prefixed(prefix, m)[key] == value
            <==> exists k <- m :: key == prefix + k && value == m[k]
  {
    PrefixedAt(prefix, m, key);
    if |prefix| <= |key| && key[..|prefix|] == prefix {
      assert key == prefix + key[|prefix|..];
    }
    if k :| k in m && key == prefix + k && value == m[k] {
      assert key[|prefix|..] == k && key[..|prefix|] == prefix;
    }
  }

  // The first letters keep the three kinds of keys apart.
  lemma PrestoEntries(spec: ClusterSpec, key: string, value: string)
    ensures Holds(PrestoData(spec), key, value) <==> PrestoEntry(spec, key, value)
  {
    hide Prefixed;
    PrefixedEntries(COORDINATOR_PREFIX, spec.coordinatorEtc, key, value);
    PrefixedEntries(WORKER_PREFIX, spec.workerEtc, key, value);
    PrefixedAt(COORDINATOR_PREFIX, spec.coordinatorEtc, key);
    PrefixedAt(WORKER_PREFIX, spec.workerEtc, key);
    assert PRE_STOP_KEY[0] == 'p';
    assert |COORDINATOR_PREFIX| <= |key| && key[..|COORDINATOR_PREFIX|] == COORDINATOR_PREFIX ==> key[0] == 'c';
    assert |WORKER_PREFIX| <= |key| && key[..|WORKER_PREFIX|] == WORKER_PREFIX ==> key[0] == 'w';
  }

  lemma CatalogEntries(spec: ClusterSpec, key: string, value: string)
    ensures Holds(CatalogData(spec), key, value) <==> CatalogEntry(spec, key, value)
  {
  }

  lemma DataExactly(spec: ClusterSpec, data: map<string, string>)
    ensures (forall key, value :: Holds(data, key, value) <==> PrestoEntry(spec, key, value))
            <==> data == PrestoData(spec)
    ensures (forall key, value :: Holds(data, key, value) <==> CatalogEntry(spec, key, value))
            <==> data == CatalogData(spec)
  {
    hide PrestoData, CatalogData, PrestoEntry, CatalogEntry;
    forall key, value { PrestoEntries(spec, key, value); }
    forall key, value { CatalogEntries(spec, key, value); }
    if forall key, value :: Holds(data, key, value) <==> PrestoEntry(spec, key, value) {
      SameEntries(data, PrestoData(spec));
    }
    if forall key, value :: Holds(data, key, value) <==> CatalogEntry(spec, key, value) {
      SameEntries(data, CatalogData(spec));
    }
  }

  // The operator builds exactly what the manifest says, for every cluster.
  lemma ManifestExactly(cl: Cluster, r: Role, o: Object)
    ensures Manifest(Request(cl.namespace, cl.name), r, cl.spec, o) <==> SameBuild(o, DesiredChild(cl, r))
  {
    hide CoordinatorPods, WorkerPods, CoordinatorTemplate, WorkerTemplate, PrestoData, CatalogData;
    hide PrestoEntry, CatalogEntry;
    match r
    case PrestoConfigMap => if o.ConfigMap? { DataExactly(cl.spec, o.data); }
    case CatalogConfigMap => if o.ConfigMap? { DataExactly(cl.spec, o.data); }
    case CoordinatorDeployment => if o.Deployment? { CoordinatorPodsExactly(cl, o.template); }
    case CoordinatorService =>
    case WorkerDeployment => if o.Deployment? { WorkerPodsExactly(cl, o.template); }
  }
}

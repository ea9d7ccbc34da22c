// Over whole runs: when every mount of a stored Deployment names a ConfigMap
// that exists and a key that its data has.
module MountsResolve {
  import opened Kubernetes
  import opened Names
  import opened Strings
  import opened Desired
  import opened Files
  import opened Manifests
  import opened ApiStore
  import opened ReconcilePass
  import opened SoloRuns
  import opened Completion
  import opened Provenance

  ghost predicate HasKey(st: Store, k: Key, subPath: string) {
    var o := Current(st, k);
    o.Some? && o.value.ConfigMap? && subPath in o.value.data
  }

  ghost predicate Resolves(st: Store, namespace: string, t: PodTemplate, m: VolumeMount) {
    var source := SourceOf(t.volumes, m.volume);
    source.Some? && HasKey(st, Key(ConfigMapKind, namespace, source.value), m.subPath)
  }

  // Every mount of the Deployment of role r resolves.
  ghost predicate MountsInPlace(st: Store, c: Request, r: Role) {
    var o := Current(st, ChildKey(c, r));
    o.Some? ==>
      && o.value.Deployment?
      && forall m <- o.value.template.mounts :: Resolves(st, c.namespace, o.value.template, m)
  }

  // ---- What the mounts of a template ask of the two data maps ----

  predicate Fulfils(m: VolumeMount, presto: map<string, string>, catalog: map<string, string>) {
    (m.volume == "config" && m.subPath in presto) || (m.volume == "catalog" && m.subPath in catalog)
  }

  lemma GroupFulfils(m: map<string, string>, volume: string, dir: string, prefix: string, readOnly: bool,
                     presto: map<string, string>, catalog: map<string, string>)
    requires volume == "config" || volume == "catalog"
    ensures var data := if volume == "config" then presto else catalog;
      (forall v <- MountAll(OrderedKeys(m.Keys), volume, dir, prefix, readOnly) :: Fulfils(v, presto, catalog))
      <==> forall k <- m :: prefix + k in data
  {
    var keys := OrderedKeys(m.Keys);
    EnumerationHasNoDuplicates(keys, m.Keys);
    hide OrderedKeys, IsOrdered;
    var mounts := MountAll(keys, volume, dir, prefix, readOnly);
    var data := if volume == "config" then presto else catalog;
    assert "config" != "catalog";
    if forall k <- m :: prefix + k in data {
      forall v <- mounts ensures Fulfils(v, presto, catalog) {
        var i :| 0 <= i < |mounts| && mounts[i] == v;
        assert keys[i] in m;
      }
    }
    if forall v <- mounts :: Fulfils(v, presto, catalog) {
      forall k <- m ensures prefix + k in data {
        var i :| 0 <= i < |keys| && keys[i] == k;
        assert mounts[i] in mounts;
      }
    }
  }

  // The spec a Deployment was built from asks only for keys that the specs of
  // the two ConfigMaps provide.
  predicate Covered(r: Role, spec: ClusterSpec, presto: ClusterSpec, catalog: ClusterSpec) {
    && (r == CoordinatorDeployment ==> spec.coordinatorEtc.Keys <= presto.coordinatorEtc.Keys)
    && (r == WorkerDeployment ==> spec.workerEtc.Keys <= presto.workerEtc.Keys)
    && spec.catalog.Keys + spec.coresite.Keys <= catalog.catalog.Keys + catalog.coresite.Keys
  }

  ghost predicate AllFulfilled(mounts: seq<VolumeMount>, presto: ClusterSpec, catalog: ClusterSpec) {
    forall m <- mounts :: Fulfils(m, PrestoData(presto), CatalogData(catalog))
  }

  lemma FulfilledConcat(a: seq<VolumeMount>, b: seq<VolumeMount>, presto: ClusterSpec, catalog: ClusterSpec)
    ensures AllFulfilled(a + b, presto, catalog)
            <==> AllFulfilled(a, presto, catalog) && AllFulfilled(b, presto, catalog)
  {
    hide PrestoData, CatalogData, Fulfils;
    assert forall m :: m in a + b <==> m in a || m in b;
  }

  lemma SharedFulfilled(spec: ClusterSpec, presto: ClusterSpec, catalog: ClusterSpec)
    ensures AllFulfilled(CatalogMounts(spec), presto, catalog) && AllFulfilled(CoresiteMounts(spec), presto, catalog)
            <==> spec.catalog.Keys + spec.coresite.Keys <= catalog.catalog.Keys + catalog.coresite.Keys
  {
    hide PrestoData, OrderedKeys, MountAll;
    assert forall k: string :: "" + k == k;
    GroupFulfils(spec.catalog, "catalog", CATALOG_DIR, "", false, PrestoData(presto), CatalogData(catalog));
    GroupFulfils(spec.coresite, "catalog", TMP_DIR, "", false, PrestoData(presto), CatalogData(catalog));
    hide Fulfils;
  }

  lemma EtcFulfilled(spec: ClusterSpec, presto: ClusterSpec, catalog: ClusterSpec)
    ensures AllFulfilled(EtcMounts(spec.coordinatorEtc, COORDINATOR_PREFIX, false), presto, catalog)
            <==> spec.coordinatorEtc.Keys <= presto.coordinatorEtc.Keys
    ensures AllFulfilled(EtcMounts(spec.workerEtc, WORKER_PREFIX, true), presto, catalog)
            <==> spec.workerEtc.Keys <= presto.workerEtc.Keys
    ensures AllFulfilled([PRE_STOP_MOUNT], presto, catalog)
  {
    hide PrestoData, CatalogData, OrderedKeys, MountAll;
    forall k
      ensures COORDINATOR_PREFIX + k in PrestoData(presto) <==> k in presto.coordinatorEtc
      ensures WORKER_PREFIX + k in PrestoData(presto) <==> k in presto.workerEtc
    {
      PrestoDataKeys(presto, k);
    }
    PrestoDataHolds(presto);
    GroupFulfils(spec.coordinatorEtc, "config", ETC_DIR, COORDINATOR_PREFIX, false,
                 PrestoData(presto), CatalogData(catalog));
    GroupFulfils(spec.workerEtc, "config", ETC_DIR, WORKER_PREFIX, true, PrestoData(presto), CatalogData(catalog));
  }

  lemma TemplateFulfilled(cl: Cluster, r: Role, presto: ClusterSpec, catalog: ClusterSpec)
    requires IsDeployment(r)
    ensures AllFulfilled(TemplateOf(cl, r).mounts, presto, catalog) <==> Covered(r, cl.spec, presto, catalog)
    ensures TemplateOf(cl, r).volumes == ConfigVolumes(cl.name)
  {
    hide AllFulfilled, EtcMounts, CatalogMounts, CoresiteMounts, ConfigVolumes, CoordinatorLabels, WorkerLabels;
    var spec := cl.spec;
    SharedFulfilled(spec, presto, catalog);
    EtcFulfilled(spec, presto, catalog);
    if r == CoordinatorDeployment {
      FulfilledConcat(EtcMounts(spec.coordinatorEtc, COORDINATOR_PREFIX, false), CatalogMounts(spec), presto, catalog);
      FulfilledConcat(EtcMounts(spec.coordinatorEtc, COORDINATOR_PREFIX, false) + CatalogMounts(spec),
                      CoresiteMounts(spec), presto, catalog);
    } else {
      var first := [PRE_STOP_MOUNT] + EtcMounts(spec.workerEtc, WORKER_PREFIX, true);
      FulfilledConcat([PRE_STOP_MOUNT], EtcMounts(spec.workerEtc, WORKER_PREFIX, true), presto, catalog);
      FulfilledConcat(first, CatalogMounts(spec), presto, catalog);
      FulfilledConcat(first + CatalogMounts(spec), CoresiteMounts(spec), presto, catalog);
    }
  }

  // ---- The stored objects ----

  // The stored child of role r is built from cl.
  ghost predicate StoredAs(st: Store, c: Request, r: Role, cl: Cluster) {
    var o := Current(st, ChildKey(c, r));
    Request(cl.namespace, cl.name) == c && o.Some? && SameBuild(o.value, DesiredChild(cl, r))
  }

  // The stored Deployment of role r is built from cl, the two ConfigMaps from
  // presto and from catalog.
  ghost predicate Assembled(st: Store, c: Request, r: Role, cl: Cluster, presto: Cluster, catalog: Cluster) {
    && IsDeployment(r) && StoredAs(st, c, r, cl)
    && StoredAs(st, c, PrestoConfigMap, presto) && StoredAs(st, c, CatalogConfigMap, catalog)
  }

  lemma StoredTemplate(st: Store, c: Request, r: Role, cl: Cluster)
    requires IsDeployment(r) && StoredAs(st, c, r, cl)
    ensures var o := Current(st, ChildKey(c, r)).value;
      o.Deployment? && o.template == TemplateOf(cl, r)
  {
    hide ChildKey, CoordinatorTemplate, WorkerTemplate, PrestoData, CatalogData;
  }

  lemma StoredData(st: Store, c: Request, presto: Cluster, catalog: Cluster)
    requires StoredAs(st, c, PrestoConfigMap, presto) && StoredAs(st, c, CatalogConfigMap, catalog)
    ensures var o := Current(st, Key(ConfigMapKind, c.namespace, PrestoConfigMapName(c.name)));
      o.Some? && o.value.ConfigMap? && o.value.data == PrestoData(presto.spec)
    ensures var o := Current(st, Key(ConfigMapKind, c.namespace, CatalogConfigMapName(c.name)));
      o.Some? && o.value.ConfigMap? && o.value.data == CatalogData(catalog.spec)
  {
    hide PrestoData, CatalogData, PrestoConfigMapName, CatalogConfigMapName, Current;
  }

  lemma MountResolution(st: Store, c: Request, t: PodTemplate, m: VolumeMount, presto: Cluster, catalog: Cluster)
    requires StoredAs(st, c, PrestoConfigMap, presto) && StoredAs(st, c, CatalogConfigMap, catalog)
    requires t.volumes == ConfigVolumes(presto.name) && (m.volume == "config" || m.volume == "catalog")
    ensures Resolves(st, c.namespace, t, m) <==> Fulfils(m, PrestoData(presto.spec), CatalogData(catalog.spec))
  {
    assert presto.name == c.name;
    StoredData(st, c, presto, catalog);
    VolumesResolve(presto);
    hide StoredAs, PrestoData, CatalogData, ConfigVolumes, PrestoConfigMapName, CatalogConfigMapName;
    assert "config" != "catalog";
  }

  lemma TwoVolumes(cl: Cluster, r: Role, m: VolumeMount)
    requires IsDeployment(r) && m in TemplateOf(cl, r).mounts
    ensures m.volume == "config" || m.volume == "catalog"
  {
    hide PrestoData, CatalogData, ConfigVolumes, CoordinatorLabels, WorkerLabels, OrderedKeys;
  }

  // In any store: the mounts of a Deployment resolve exactly when the CR it is
  // built from asks for no config key that the ConfigMaps' CRs lack.
  lemma AssembledMounts(st: Store, c: Request, r: Role, cl: Cluster, presto: Cluster, catalog: Cluster)
    requires Assembled(st, c, r, cl, presto, catalog)
    ensures MountsInPlace(st, c, r) <==> Covered(r, cl.spec, presto.spec, catalog.spec)
  {
    hide ChildKey, DesiredChild, Resolves, Fulfils, Covered, PrestoData, CatalogData, ConfigVolumes;
    StoredTemplate(st, c, r, cl);
    DesiredShape(cl, r);
    TemplateFulfilled(cl, r, presto.spec, catalog.spec);
    assert cl.name == presto.name;
    hide StoredAs, Current;
    var t := Current(st, ChildKey(c, r)).value.template;
    forall m <- t.mounts
      ensures Resolves(st, c.namespace, t, m) <==> Fulfils(m, PrestoData(presto.spec), CatalogData(catalog.spec))
    {
      TwoVolumes(cl, r, m);
      MountResolution(st, c, t, m, presto, catalog);
    }
  }

  // ---- The files that a stored Deployment's container sees ----

  // The ConfigMaps stored in a namespace.
  ghost function StoredConfigs(st: Store, namespace: string): Configs {
    map name: string | name in ConfigNames(st, namespace) ::
      Current(st, Key(ConfigMapKind, namespace, name)).value.data
  }

  ghost function ConfigNames(st: Store, namespace: string): (names: set<string>)
    ensures forall name <- names ::
      var o := Current(st, Key(ConfigMapKind, namespace, name)); o.Some? && o.value.ConfigMap?
  {
    set k | k in st && k == Key(ConfigMapKind, namespace, k.name)
            && Current(st, k).Some? && Current(st, k).value.ConfigMap? :: k.name
  }

  lemma StoredConfig(st: Store, namespace: string, name: string)
    requires var o := Current(st, Key(ConfigMapKind, namespace, name)); o.Some? && o.value.ConfigMap?
    ensures var configs := StoredConfigs(st, namespace);
      name in configs && configs[name] == Current(st, Key(ConfigMapKind, namespace, name)).value.data
  {
    var k := Key(ConfigMapKind, namespace, name);
    assert k in st && k.name == name;
  }

  lemma StoredConfigsServe(st: Store, c: Request, presto: Cluster, catalog: Cluster)
    requires StoredAs(st, c, PrestoConfigMap, presto) && StoredAs(st, c, CatalogConfigMap, catalog)
    ensures Serves(StoredConfigs(st, c.namespace), c.name, presto.spec, catalog.spec)
  {
    hide StoredAs, PrestoData, CatalogData, PrestoConfigMapName, CatalogConfigMapName, StoredConfigs, Current;
    StoredData(st, c, presto, catalog);
    StoredConfig(st, c.namespace, PrestoConfigMapName(c.name));
    StoredConfig(st, c.namespace, CatalogConfigMapName(c.name));
  }

  // The container of the stored Deployment sees a file with this content.
  ghost predicate StoredShows(st: Store, c: Request, r: Role, path: string, content: string) {
    var o := Current(st, ChildKey(c, r));
    o.Some? && o.value.Deployment? && Shows(o.value.template, StoredConfigs(st, c.namespace), path, content)
  }

  // In any store: exactly these files, through the ConfigMaps as stored.
  lemma StoredFiles(st: Store, c: Request, r: Role, cl: Cluster, presto: Cluster, catalog: Cluster,
                    path: string, content: string)
    requires Assembled(st, c, r, cl, presto, catalog)
    ensures StoredShows(st, c, r, path, content) <==> Served(r, cl.spec, presto.spec, catalog.spec, path, content)
  {
    hide ChildKey, DesiredChild, Shows, Served, Serves, SameBuild, StoredConfigs;
    StoredTemplate(st, c, r, cl);
    StoredConfigsServe(st, c, presto, catalog);
    ContainerSees(cl, r, StoredConfigs(st, c.namespace), presto.spec, catalog.spec, path, content);
  }

  // They are those that cl asks for if the ConfigMaps have every entry it
  // asks for, and, where no two mount paths are the same, only then.
  lemma StoredFilesAsWanted(st: Store, c: Request, r: Role, cl: Cluster, presto: Cluster, catalog: Cluster)
    requires Assembled(st, c, r, cl, presto, catalog)
    ensures var asWanted := forall path, content :: StoredShows(st, c, r, path, content)
                                                    <==> Wanted(r, cl.spec, path, content);
      && (UpToDate(r, cl.spec, presto.spec, catalog.spec) ==> asWanted)
      && (NoClash(r, cl.spec) && asWanted ==> UpToDate(r, cl.spec, presto.spec, catalog.spec))
  {
    hide StoredShows, Served, Wanted, UpToDate, NoClash, StoredAs;
    forall path, content
      ensures StoredShows(st, c, r, path, content) <==> Served(r, cl.spec, presto.spec, catalog.spec, path, content)
    {
      StoredFiles(st, c, r, cl, presto, catalog, path, content);
    }
    ServedAsWanted(r, cl.spec, presto.spec, catalog.spec);
  }

  // ---- Over whole runs ----

  // The CR version that the child of role r was built from.
  ghost predicate BuiltAs(c: Request, x: Solo, r: Role, cl: Cluster) {
    var v, h := LastVersion(x.agent.writes, r), History(x.store, ClusterKey(c));
    v.Some? && v.value < |h| && h[v.value] == Some(PrestoCluster(cl))
  }

  lemma StoredBuild(c: Request, x: Solo, r: Role, cl: Cluster)
    requires Traced(c, x) && BuiltAs(c, x, r, cl)
    ensures StoredAs(x.store, c, r, cl)
  {
    hide ChildKey, DesiredChild, DesiredState, AgentSane, SameBuild, InOrder, NothingLost, Driven;
    hide VersionsOrdered, WrittenOnce;
    var h := History(x.store, ClusterKey(c));
    assert KnownSource(c, x, r);
    assert Fits(h[LastVersion(x.agent.writes, r).value].value, ClusterKey(c), LastVersion(x.agent.writes, r).value);
  }

  // In every reachable state: the mounts of a Deployment resolve exactly when
  // the CR version it was built from asks for no config key that the versions
  // of the two ConfigMaps lack, and its container sees exactly the files that
  // the three versions make up.
  lemma MountsInPlaceExactly(c: Request, x: Solo, r: Role, cl: Cluster, presto: Cluster, catalog: Cluster)
    requires Traced(c, x) && IsDeployment(r) && BuiltAs(c, x, r, cl)
    requires BuiltAs(c, x, PrestoConfigMap, presto) && BuiltAs(c, x, CatalogConfigMap, catalog)
    ensures MountsInPlace(x.store, c, r) <==> Covered(r, cl.spec, presto.spec, catalog.spec)
    ensures forall path, content ::
      StoredShows(x.store, c, r, path, content) <==> Served(r, cl.spec, presto.spec, catalog.spec, path, content)
  {
    hide Traced, BuiltAs, MountsInPlace, Covered, StoredShows, Served, StoredAs;
    StoredBuild(c, x, r, cl);
    StoredBuild(c, x, PrestoConfigMap, presto);
    StoredBuild(c, x, CatalogConfigMap, catalog);
    AssembledMounts(x.store, c, r, cl, presto, catalog);
    forall path, content
      ensures StoredShows(x.store, c, r, path, content)
              <==> Served(r, cl.spec, presto.spec, catalog.spec, path, content)
    {
      StoredFiles(x.store, c, r, cl, presto, catalog, path, content);
    }
  }

  // The files are those that the Deployment's own CR version asks for if the
  // versions of the ConfigMaps have every entry it asks for, and, where no two
  // mount paths are the same, only then. A changed value stays stale.
  lemma FilesAsWantedExactly(c: Request, x: Solo, r: Role, cl: Cluster, presto: Cluster, catalog: Cluster)
    requires Traced(c, x) && IsDeployment(r) && BuiltAs(c, x, r, cl)
    requires BuiltAs(c, x, PrestoConfigMap, presto) && BuiltAs(c, x, CatalogConfigMap, catalog)
    ensures var asWanted := forall path, content :: StoredShows(x.store, c, r, path, content)
                                                    <==> Wanted(r, cl.spec, path, content);
      && (UpToDate(r, cl.spec, presto.spec, catalog.spec) ==> asWanted)
      && (NoClash(r, cl.spec) && asWanted ==> UpToDate(r, cl.spec, presto.spec, catalog.spec))
  {
    hide Traced, BuiltAs, StoredShows, StoredAs, Wanted, UpToDate, NoClash;
    StoredBuild(c, x, r, cl);
    StoredBuild(c, x, PrestoConfigMap, presto);
    StoredBuild(c, x, CatalogConfigMap, catalog);
    StoredFilesAsWanted(x.store, c, r, cl, presto, catalog);
  }

  lemma StoredManifest(st: Store, c: Request, r: Role, cl: Cluster)
    requires StoredAs(st, c, r, cl)
    ensures Manifest(c, r, cl.spec, Current(st, ChildKey(c, r)).value)
  {
    hide Manifest, ChildKey, DesiredChild, SameBuild;
    ManifestExactly(cl, r, Current(st, ChildKey(c, r)).value);
  }

  // In every state of every run: a stored child, image, labels, mounts, data
  // and all, is what its manifest says for some version of the CR.
  lemma EveryChildMatches(c: Request, x: Solo, acts: seq<Action>, r: Role) returns (cl: Cluster)
    requires Untouched(c, x)
    requires Permitted(x, acts, (y, a) => Traceable(c, y, a))
    requires Present(Exec(x, acts).store, c, r)
    ensures var y := Exec(x, acts);
      BuiltAs(c, y, r, cl) && Manifest(c, r, cl.spec, Current(y.store, ChildKey(c, r)).value)
  {
    hide Traced, Untouched, Manifest, BuiltAs, StoredAs;
    ChildrenAreTraced(c, x, acts);
    cl := SomeBuild(c, Exec(x, acts), r);
    StoredBuild(c, Exec(x, acts), r, cl);
    StoredManifest(Exec(x, acts).store, c, r, cl);
  }

  // ---- Edits that add no key ----

  predicate KeysWithin(later: ClusterSpec, earlier: ClusterSpec) {
    && later.coordinatorEtc.Keys <= earlier.coordinatorEtc.Keys
    && later.workerEtc.Keys <= earlier.workerEtc.Keys
    && later.catalog.Keys <= earlier.catalog.Keys
    && later.coresite.Keys <= earlier.coresite.Keys
  }

  // No version of the CR has a config key that an earlier version lacks.
  ghost predicate KeysNeverAdded(st: Store, c: Request) {
    var h := History(st, ClusterKey(c));
    forall i, j :: 0 <= i <= j < |h| && h[i].Some? && h[i].value.PrestoCluster?
                   && h[j].Some? && h[j].value.PrestoCluster? ==>
      KeysWithin(h[j].value.cluster.spec, h[i].value.cluster.spec)
  }

  lemma SomeBuild(c: Request, x: Solo, r: Role) returns (cl: Cluster)
    requires Traced(c, x) && Present(x.store, c, r)
    ensures BuiltAs(c, x, r, cl)
  {
    hide ChildKey, Orderly, VersionsOrdered, WrittenOnce, SameBuild, DesiredChild;
    assert KnownSource(c, x, r);
    cl := History(x.store, ClusterKey(c))[LastVersion(x.agent.writes, r).value].value.cluster;
  }

  lemma NewerCoversLess(c: Request, x: Solo, r: Role, cl: Cluster, q: Role, earlier: Cluster)
    requires Traced(c, x) && KeysNeverAdded(x.store, c)
    requires !IsDeployment(q) && Position(q) < Position(r) && BuiltAs(c, x, r, cl) && BuiltAs(c, x, q, earlier)
    ensures KeysWithin(cl.spec, earlier.spec)
  {
    hide ChildKey, Orderly, KnownSource, WrittenOnce, KeysWithin, LastVersion;
  }

  lemma TracedMounts(c: Request, x: Solo, r: Role)
    requires Traced(c, x) && KeysNeverAdded(x.store, c) && IsDeployment(r)
    ensures MountsInPlace(x.store, c, r)
  {
    hide ChildKey, Traced, BuiltAs, KeysNeverAdded, Resolves;
    if Present(x.store, c, r) {
      assert InOrder(x.store, c) by { TracedInOrder(c, x); }
      var cl := SomeBuild(c, x, r);
      var presto := SomeBuild(c, x, PrestoConfigMap);
      var catalog := SomeBuild(c, x, CatalogConfigMap);
      NewerCoversLess(c, x, r, cl, PrestoConfigMap, presto);
      NewerCoversLess(c, x, r, cl, CatalogConfigMap, catalog);
      MountsInPlaceExactly(c, x, r, cl, presto, catalog);
    }
  }

  lemma TracedInOrder(c: Request, x: Solo)
    requires Traced(c, x)
    ensures InOrder(x.store, c)
  {
  }

  // Under faults, stale child reads, scaling and any CR edit that adds no
  // config key, in every state of every run.
  lemma EveryMountResolves(c: Request, x: Solo, acts: seq<Action>)
    requires Untouched(c, x)
    requires Permitted(x, acts, (y, a) => Traceable(c, y, a))
    requires KeysNeverAdded(Exec(x, acts).store, c)
    ensures MountsInPlace(Exec(x, acts).store, c, CoordinatorDeployment)
    ensures MountsInPlace(Exec(x, acts).store, c, WorkerDeployment)
  {
    hide Traced, Untouched, MountsInPlace, KeysNeverAdded;
    ChildrenAreTraced(c, x, acts);
    TracedMounts(c, Exec(x, acts), CoordinatorDeployment);
    TracedMounts(c, Exec(x, acts), WorkerDeployment);
  }
}

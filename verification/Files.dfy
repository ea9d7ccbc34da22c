// What the translation means: the files that a container sees, against the
// files that the user wrote into the CR; and which pods the selectors pick.
module Files {
  import opened Kubernetes
  import opened Names
  import opened Strings
  import opened Desired

  // The data of each ConfigMap of a namespace, by name.
  type Configs = map<string, map<string, string>>

  function SourceOf(volumes: seq<Volume>, name: string): Option<string> {
    if volumes == [] then None
    else if volumes[0].name == name then Some(volumes[0].configMap)
    else SourceOf(volumes[1..], name)
  }

  // A mount resolves through its volume to one key of a ConfigMap.
  function Content(m: VolumeMount, volumes: seq<Volume>, configs: Configs): Option<string> {
    var source := SourceOf(volumes, m.volume);
    if source.Some? && source.value in configs && m.subPath in configs[source.value]
    then Some(configs[source.value][m.subPath]) else None
  }

  // The container sees a file with this path and this content.
  ghost predicate Shows(t: PodTemplate, configs: Configs, path: string, content: string) {
    exists m <- t.mounts :: m.path == path && Content(m, t.volumes, configs) == Some(content)
  }

  // Some key of m, put under dir, is this path, and it has this content.
  ghost predicate Under(dir: string, m: map<string, string>, path: string, content: string) {
    exists k <- m :: path == dir + k && content == m[k]
  }

  // The files of three maps, each put under its own directory.
  ghost predicate Laid(etc: map<string, string>, catalog: map<string, string>, coresite: map<string, string>,
                       path: string, content: string)
  {
    || Under(ETC_DIR, etc, path, content)
    || Under(CATALOG_DIR, catalog, path, content)
    || Under(TMP_DIR, coresite, path, content)
  }

  predicate IsPreStop(path: string, content: string) {
    path == ETC_DIR + PRE_STOP_KEY && content == PRE_STOP_SCRIPT
  }

  // The etc files meant for the container of role r.
  function EtcOf(spec: ClusterSpec, r: Role): map<string, string> {
    if r == CoordinatorDeployment then spec.coordinatorEtc else spec.workerEtc
  }

  // The files the user asked for, and the workers' pre-stop hook.
  ghost predicate Wanted(r: Role, spec: ClusterSpec, path: string, content: string) {
    || Laid(EtcOf(spec, r), spec.catalog, spec.coresite, path, content)
    || (r == WorkerDeployment && IsPreStop(path, content))
  }

  // The ConfigMaps of a cluster of this name hold what these specs ask for.
  ghost predicate Serves(configs: Configs, cluster: string, presto: ClusterSpec, catalog: ClusterSpec) {
    && PrestoConfigMapName(cluster) in configs && configs[PrestoConfigMapName(cluster)] == PrestoData(presto)
    && CatalogConfigMapName(cluster) in configs && configs[CatalogConfigMapName(cluster)] == CatalogData(catalog)
  }

  // ---- Resolving one group of mounts ----

  lemma VolumesResolve(cl: Cluster)
    ensures SourceOf(ConfigVolumes(cl.name), "config") == Some(PrestoConfigMapName(cl.name))
    ensures SourceOf(ConfigVolumes(cl.name), "catalog") == Some(CatalogConfigMapName(cl.name))
    ensures PrestoConfigMapName(cl.name) != CatalogConfigMapName(cl.name)
  {
    hide PrestoData, CatalogData, PrestoConfigMapName, CatalogConfigMapName;
    assert ConfigVolumes(cl.name)[1..][0].name == "catalog";
    RolesApart(Request("", cl.name), PrestoConfigMap, CatalogConfigMap);
  }

  // What data holds for the keys of m, each looked up under the prefix.
  ghost function Held(m: map<string, string>, prefix: string, data: map<string, string>): map<string, string> {
    map k | k in m && prefix + k in data :: data[prefix + k]
  }

  // A group of mounts over the keys of m shows, under dir, what its ConfigMap
  // holds under the prefixed keys.
  lemma GroupShows(m: map<string, string>, volume: string, dir: string, prefix: string, readOnly: bool,
                   volumes: seq<Volume>, configs: Configs, source: string, path: string, content: string)
    requires SourceOf(volumes, volume) == Some(source) && source in configs
    ensures var mounts := MountAll(OrderedKeys(m.Keys), volume, dir, prefix, readOnly);
      (exists v <- mounts :: v.path == path && Content(v, volumes, configs) == Some(content))
      <==> Under(dir, Held(m, prefix, configs[source]), path, content)
  {
    var keys := OrderedKeys(m.Keys);
    var mounts := MountAll(keys, volume, dir, prefix, readOnly);
    var held := Held(m, prefix, configs[source]);
    KeysListed(m);
    hide OrderedKeys;
    if Under(dir, held, path, content) {
      var k :| k in held && path == dir + k && content == held[k];
      var i :| 0 <= i < |keys| && keys[i] == k;
      assert mounts[i] in mounts && Content(mounts[i], volumes, configs) == Some(content);
    }
    if v :| v in mounts && v.path == path && Content(v, volumes, configs) == Some(content) {
      var i :| 0 <= i < |mounts| && mounts[i] == v;
      assert keys[i] in held && path == dir + keys[i] && content == held[keys[i]];
    }
  }

  // ---- What the ConfigMaps hold ----

  lemma PrefixedAt(prefix: string, m: map<string, string>, q: string)
    ensures q in Prefixed(prefix, m) <==> |prefix| <= |q| && q[..|prefix|] == prefix && q[|prefix|..] in m
    ensures q in Prefixed(prefix, m) ==> Prefixed(prefix, m)[q] == m[q[|prefix|..]]
  {
    PrefixedKey(prefix, m.Keys, q);
  }

  lemma PrestoDataHolds(spec: ClusterSpec)
    ensures forall k <- spec.coordinatorEtc ::
      COORDINATOR_PREFIX + k in PrestoData(spec) && PrestoData(spec)[COORDINATOR_PREFIX + k] == spec.coordinatorEtc[k]
    ensures forall k <- spec.workerEtc ::
      WORKER_PREFIX + k in PrestoData(spec) && PrestoData(spec)[WORKER_PREFIX + k] == spec.workerEtc[k]
    ensures PRE_STOP_KEY in PrestoData(spec) && PrestoData(spec)[PRE_STOP_KEY] == PRE_STOP_SCRIPT
  {
    forall k <- spec.coordinatorEtc
      ensures COORDINATOR_PREFIX + k in PrestoData(spec)
      ensures PrestoData(spec)[COORDINATOR_PREFIX + k] == spec.coordinatorEtc[k]
    {
      var q := COORDINATOR_PREFIX + k;
      assert q[..|COORDINATOR_PREFIX|] == COORDINATOR_PREFIX && q[|COORDINATOR_PREFIX|..] == k;
      PrefixedAt(COORDINATOR_PREFIX, spec.coordinatorEtc, q);
      assert q[0] == 'c' && WORKER_PREFIX[0] == 'w' && PRE_STOP_KEY[0] == 'p';
      PrefixedAt(WORKER_PREFIX, spec.workerEtc, q);
      assert q[..|WORKER_PREFIX|][0] == q[0];
      hide Prefixed;
    }
    forall k <- spec.workerEtc
      ensures WORKER_PREFIX + k in PrestoData(spec) && PrestoData(spec)[WORKER_PREFIX + k] == spec.workerEtc[k]
    {
      var q := WORKER_PREFIX + k;
      assert q[..|WORKER_PREFIX|] == WORKER_PREFIX && q[|WORKER_PREFIX|..] == k;
      PrefixedAt(WORKER_PREFIX, spec.workerEtc, q);
      assert q[0] == 'w' && PRE_STOP_KEY[0] == 'p';
      hide Prefixed;
    }
  }

  // The two groups of etc files never get in each other's way.
  lemma PrestoDataKeys(spec: ClusterSpec, k: string)
    ensures COORDINATOR_PREFIX + k in PrestoData(spec) <==> k in spec.coordinatorEtc
    ensures WORKER_PREFIX + k in PrestoData(spec) <==> k in spec.workerEtc
  {
    hide Prefixed;
    var q, p := COORDINATOR_PREFIX + k, WORKER_PREFIX + k;
    assert q[..|COORDINATOR_PREFIX|] == COORDINATOR_PREFIX && q[|COORDINATOR_PREFIX|..] == k;
    assert p[..|WORKER_PREFIX|] == WORKER_PREFIX && p[|WORKER_PREFIX|..] == k;
    assert q[0] == 'c' && p[0] == 'w' && PRE_STOP_KEY[0] == 'p';
    assert q[..|WORKER_PREFIX|][0] == 'c' && WORKER_PREFIX[0] == 'w';
    assert |COORDINATOR_PREFIX| <= |p| ==> p[..|COORDINATOR_PREFIX|][0] == 'w' && COORDINATOR_PREFIX[0] == 'c';
    PrefixedAt(COORDINATOR_PREFIX, spec.coordinatorEtc, q);
    PrefixedAt(WORKER_PREFIX, spec.workerEtc, q);
    PrefixedAt(COORDINATOR_PREFIX, spec.coordinatorEtc, p);
    PrefixedAt(WORKER_PREFIX, spec.workerEtc, p);
  }

  // ---- The two containers ----

  // The entries of data for the keys of m.
  ghost function Kept(m: map<string, string>, data: map<string, string>): map<string, string> {
    map k | k in m && k in data :: data[k]
  }

  lemma HeldEtc(etc: map<string, string>, presto: ClusterSpec)
    ensures Held(etc, COORDINATOR_PREFIX, PrestoData(presto)) == Kept(etc, presto.coordinatorEtc)
    ensures Held(etc, WORKER_PREFIX, PrestoData(presto)) == Kept(etc, presto.workerEtc)
  {
    hide PrestoData;
    PrestoDataHolds(presto);
    forall k
      ensures COORDINATOR_PREFIX + k in PrestoData(presto) <==> k in presto.coordinatorEtc
      ensures WORKER_PREFIX + k in PrestoData(presto) <==> k in presto.workerEtc
    {
      PrestoDataKeys(presto, k);
    }
  }

  // The files of a container whose Deployment is built from spec, when the
  // two ConfigMaps are built from presto and from catalog.
  ghost predicate Served(r: Role, spec: ClusterSpec, presto: ClusterSpec, catalog: ClusterSpec,
                         path: string, content: string)
  {
    || Laid(Kept(EtcOf(spec, r), EtcOf(presto, r)), Kept(spec.catalog, CatalogData(catalog)),
            Kept(spec.coresite, CatalogData(catalog)), path, content)
    || (r == WorkerDeployment && IsPreStop(path, content))
  }

  lemma SharedGroupsShow(cl: Cluster, configs: Configs, presto: ClusterSpec, catalog: ClusterSpec,
                         path: string, content: string)
    requires Serves(configs, cl.name, presto, catalog)
    ensures var vs, data := ConfigVolumes(cl.name), CatalogData(catalog);
      && ((exists v <- CatalogMounts(cl.spec) :: v.path == path && Content(v, vs, configs) == Some(content))
          <==> Under(CATALOG_DIR, Kept(cl.spec.catalog, data), path, content))
      && ((exists v <- CoresiteMounts(cl.spec) :: v.path == path && Content(v, vs, configs) == Some(content))
          <==> Under(TMP_DIR, Kept(cl.spec.coresite, data), path, content))
  {
    hide PrestoConfigMapName, CatalogConfigMapName, PrestoData, CatalogData, OrderedKeys, ConfigVolumes;
    VolumesResolve(cl);
    var vs, source, data := ConfigVolumes(cl.name), CatalogConfigMapName(cl.name), CatalogData(catalog);
    assert forall k: string :: "" + k == k;
    assert Held(cl.spec.catalog, "", data) == Kept(cl.spec.catalog, data);
    assert Held(cl.spec.coresite, "", data) == Kept(cl.spec.coresite, data);
    GroupShows(cl.spec.catalog, "catalog", CATALOG_DIR, "", false, vs, configs, source, path, content);
    GroupShows(cl.spec.coresite, "catalog", TMP_DIR, "", false, vs, configs, source, path, content);
  }

  lemma EtcGroupShows(cl: Cluster, prefix: string, etc: map<string, string>, readOnly: bool,
                      configs: Configs, presto: ClusterSpec, catalog: ClusterSpec, path: string, content: string)
    requires Serves(configs, cl.name, presto, catalog) && (prefix == COORDINATOR_PREFIX || prefix == WORKER_PREFIX)
    ensures var from := if prefix == COORDINATOR_PREFIX then presto.coordinatorEtc else presto.workerEtc;
      (exists v <- EtcMounts(etc, prefix, readOnly) ::
         v.path == path && Content(v, ConfigVolumes(cl.name), configs) == Some(content))
      <==> Under(ETC_DIR, Kept(etc, from), path, content)
  {
    hide PrestoConfigMapName, CatalogConfigMapName, PrestoData, CatalogData, OrderedKeys, ConfigVolumes;
    VolumesResolve(cl);
    HeldEtc(etc, presto);
    GroupShows(etc, "config", ETC_DIR, prefix, readOnly, ConfigVolumes(cl.name), configs,
               PrestoConfigMapName(cl.name), path, content);
  }

  lemma PreStopResolves(cl: Cluster, configs: Configs, presto: ClusterSpec, catalog: ClusterSpec)
    requires Serves(configs, cl.name, presto, catalog)
    ensures Content(PRE_STOP_MOUNT, ConfigVolumes(cl.name), configs) == Some(PRE_STOP_SCRIPT)
  {
    hide PrestoConfigMapName, CatalogConfigMapName, PrestoData, CatalogData, ConfigVolumes;
    VolumesResolve(cl);
    PrestoDataHolds(presto);
  }

  // Exactly these files, for every spec and whatever the ConfigMaps hold.
  lemma ContainerSees(cl: Cluster, r: Role, configs: Configs, presto: ClusterSpec, catalog: ClusterSpec,
                      path: string, content: string)
    requires IsDeployment(r) && Serves(configs, cl.name, presto, catalog)
    ensures Shows(TemplateOf(cl, r), configs, path, content)
            <==> Served(r, cl.spec, presto, catalog, path, content)
  {
    hide Serves, ConfigVolumes, EtcMounts, CatalogMounts, CoresiteMounts, Under, Content;
    hide CoordinatorLabels, WorkerLabels, Kept, CatalogData;
    SharedGroupsShow(cl, configs, presto, catalog, path, content);
    if r == CoordinatorDeployment {
      EtcGroupShows(cl, COORDINATOR_PREFIX, cl.spec.coordinatorEtc, false, configs, presto, catalog, path, content);
    } else {
      EtcGroupShows(cl, WORKER_PREFIX, cl.spec.workerEtc, true, configs, presto, catalog, path, content);
      PreStopResolves(cl, configs, presto, catalog);
      assert PRE_STOP_MOUNT in [PRE_STOP_MOUNT];
    }
  }

  // The workers and they alone have a pre-stop hook; the file that it runs is
  // there, and is the hook's script, whatever the age of the ConfigMaps.
  lemma HookRunsTheScript(cl: Cluster, r: Role, configs: Configs, presto: ClusterSpec, catalog: ClusterSpec)
    requires IsDeployment(r) && Serves(configs, cl.name, presto, catalog)
    ensures var t := TemplateOf(cl, r);
      && (t.preStop != [] <==> r == WorkerDeployment)
      && (t.preStop != [] ==>
            |t.preStop| == 2 && t.preStop[0] == "/bin/sh" && Shows(t, configs, t.preStop[1], PRE_STOP_SCRIPT))
  {
    hide Serves, ConfigVolumes, Laid, Shows, WorkerMounts, WorkerLabels, CoordinatorMounts, CoordinatorLabels;
    if r == WorkerDeployment {
      ContainerSees(cl, r, configs, presto, catalog, ETC_DIR + PRE_STOP_KEY, PRE_STOP_SCRIPT);
    }
  }

  // ---- When that is what the user wrote ----

  // The container of role r sees what spec asks for.
  ghost predicate SeesWanted(r: Role, t: PodTemplate, configs: Configs, spec: ClusterSpec) {
    forall path, content :: Shows(t, configs, path, content) <==> Wanted(r, spec, path, content)
  }

  // A key used by both the catalog and the coresite has one value.
  predicate OneValuePerKey(spec: ClusterSpec) {
    forall k <- spec.catalog :: k in spec.coresite ==> spec.catalog[k] == spec.coresite[k]
  }

  // data has every entry of m.
  predicate Provides(data: map<string, string>, m: map<string, string>) {
    forall k <- m :: k in data && data[k] == m[k]
  }

  // The ConfigMaps have every entry that the container of role r is to see.
  ghost predicate UpToDate(r: Role, spec: ClusterSpec, presto: ClusterSpec, catalog: ClusterSpec) {
    && Provides(EtcOf(presto, r), EtcOf(spec, r))
    && Provides(CatalogData(catalog), spec.catalog) && Provides(CatalogData(catalog), spec.coresite)
  }

  lemma SameDir(dir: string, k: string, q: string)
    ensures dir + k == dir + q <==> k == q
  {
    assert (dir + k)[|dir|..] == k && (dir + q)[|dir|..] == q;
  }

  lemma TmpIsApart(k: string, q: string)
    ensures TMP_DIR + k != ETC_DIR + q && TMP_DIR + k != CATALOG_DIR + q
  {
    assert (TMP_DIR + k)[1] == 't' && (ETC_DIR + q)[1] == 'u' && (CATALOG_DIR + q)[1] == 'u';
  }

  lemma PreStopIsApart(k: string)
    ensures CATALOG_DIR + k != ETC_DIR + PRE_STOP_KEY && TMP_DIR + k != ETC_DIR + PRE_STOP_KEY
  {
    var n := |ETC_DIR|;
    assert (CATALOG_DIR + k)[n] == 'c' && (ETC_DIR + PRE_STOP_KEY)[n] == 'p';
    TmpIsApart(k, PRE_STOP_KEY);
  }

  lemma CatalogInsideEtc(k: string, q: string)
    ensures CATALOG_DIR + k == ETC_DIR + q <==> q == "catalog/" + k
  {
    assert CATALOG_DIR + k == ETC_DIR + ("catalog/" + k);
    SameDir(ETC_DIR, "catalog/" + k, q);
  }

  lemma ProvidedIsKept(data: map<string, string>, m: map<string, string>)
    ensures Provides(data, m) <==> Kept(m, data) == m
  {
    if Kept(m, data) == m {
      assert forall k <- m :: k in Kept(m, data);
    }
  }

  // A key with two values shows the coresite's value where the catalog's was
  // wanted, and an etc file cannot make up for both.
  lemma AgreementNeeded(r: Role, spec: ClusterSpec, k: string)
    requires k in spec.catalog && k in spec.coresite && spec.catalog[k] != spec.coresite[k]
    ensures exists content :: Served(r, spec, spec, spec, CATALOG_DIR + k, content)
                              <==> !Wanted(r, spec, CATALOG_DIR + k, content)
  {
    var path, etc, shown := CATALOG_DIR + k, EtcOf(spec, r), Kept(spec.catalog, CatalogData(spec));
    assert Kept(etc, etc) == etc;
    assert shown[k] == spec.coresite[k];
    assert Under(CATALOG_DIR, shown, path, spec.coresite[k]);
    assert Under(CATALOG_DIR, spec.catalog, path, spec.catalog[k]);
    PreStopIsApart(k);
    forall q ensures CATALOG_DIR + q == path <==> q == k { SameDir(CATALOG_DIR, q, k); }
    forall q ensures TMP_DIR + q != path { TmpIsApart(q, k); }
    forall q, r ensures ETC_DIR + q == ETC_DIR + r <==> q == r { SameDir(ETC_DIR, q, r); }
    assert !Under(CATALOG_DIR, spec.catalog, path, spec.coresite[k]);
    assert !Under(CATALOG_DIR, shown, path, spec.catalog[k]);
    assert !(Under(ETC_DIR, etc, path, spec.coresite[k]) && Under(ETC_DIR, etc, path, spec.catalog[k]));
    assert Served(r, spec, spec, spec, path, spec.coresite[k]);
    assert Wanted(r, spec, path, spec.catalog[k]);
    assert (Served(r, spec, spec, spec, path, spec.catalog[k]) <==> !Wanted(r, spec, path, spec.catalog[k]))
        || (Served(r, spec, spec, spec, path, spec.coresite[k]) <==> !Wanted(r, spec, path, spec.coresite[k]));
  }

  // With ConfigMaps built from the same CR, a container sees exactly the files
  // the user wrote for it, for every spec whose catalog and coresite agree on
  // shared keys, and only then.
  lemma TranslationFaithful(cl: Cluster, r: Role, configs: Configs)
    requires IsDeployment(r) && Serves(configs, cl.name, cl.spec, cl.spec)
    ensures SeesWanted(r, TemplateOf(cl, r), configs, cl.spec) <==> OneValuePerKey(cl.spec)
  {
    hide Shows, TemplateOf, Serves, Served, Wanted;
    var spec := cl.spec;
    forall path, content
      ensures Shows(TemplateOf(cl, r), configs, path, content)
              <==> Served(r, spec, spec, spec, path, content)
    {
      ContainerSees(cl, r, configs, spec, spec, path, content);
    }
    if OneValuePerKey(spec) {
      UpToDateSuffices(r, spec, spec, spec);
    } else {
      var k :| k in spec.catalog && k in spec.coresite && spec.catalog[k] != spec.coresite[k];
      AgreementNeeded(r, spec, k);
    }
  }

  lemma UpToDateSuffices(r: Role, spec: ClusterSpec, presto: ClusterSpec, catalog: ClusterSpec)
    requires UpToDate(r, spec, presto, catalog)
    ensures forall path, content :: Served(r, spec, presto, catalog, path, content) <==> Wanted(r, spec, path, content)
  {
    hide CatalogData, Laid, Kept, Provides;
    ProvidedIsKept(EtcOf(presto, r), EtcOf(spec, r));
    ProvidedIsKept(CatalogData(catalog), spec.catalog);
    ProvidedIsKept(CatalogData(catalog), spec.coresite);
  }

  // ---- When the ConfigMaps are older than the Deployment ----

  // No etc key reaches into the catalog directory under a catalog key.
  predicate NoEtcKeyInCatalog(etc: map<string, string>, spec: ClusterSpec) {
    forall k <- spec.catalog :: "catalog/" + k !in etc
  }

  // The mount paths of role r's container are pairwise different.
  predicate NoClash(r: Role, spec: ClusterSpec) {
    && NoEtcKeyInCatalog(EtcOf(spec, r), spec)
    && (r == WorkerDeployment ==> PRE_STOP_KEY !in spec.workerEtc)
  }

  lemma DirsDoNotMeet(r: Role, spec: ClusterSpec, k: string, q: string)
    requires NoClash(r, spec)
    ensures q in spec.catalog && k in EtcOf(spec, r) ==> CATALOG_DIR + q != ETC_DIR + k
    ensures TMP_DIR + q != ETC_DIR + k && TMP_DIR + q != CATALOG_DIR + k
    ensures ETC_DIR + q == ETC_DIR + k <==> q == k
    ensures CATALOG_DIR + q == CATALOG_DIR + k <==> q == k
    ensures TMP_DIR + q == TMP_DIR + k <==> q == k
  {
    CatalogInsideEtc(q, k);
    TmpIsApart(q, k);
    SameDir(ETC_DIR, q, k);
    SameDir(CATALOG_DIR, q, k);
    SameDir(TMP_DIR, q, k);
  }

  // Where no two paths are the same, every file betrays its source.
  lemma EtcShown(r: Role, spec: ClusterSpec, presto: ClusterSpec, catalog: ClusterSpec, k: string)
    requires NoClash(r, spec) && IsDeployment(r) && k in EtcOf(spec, r)
    requires Served(r, spec, presto, catalog, ETC_DIR + k, EtcOf(spec, r)[k])
    ensures k in EtcOf(presto, r) && EtcOf(presto, r)[k] == EtcOf(spec, r)[k]
  {
    hide CatalogData, NoClash;
    forall q { DirsDoNotMeet(r, spec, k, q); }
    if r == WorkerDeployment {
      HookIsApart(r, spec, k);
    }
  }

  lemma HookIsApart(r: Role, spec: ClusterSpec, k: string)
    requires NoClash(r, spec) && r == WorkerDeployment && k in EtcOf(spec, r)
    ensures ETC_DIR + k != ETC_DIR + PRE_STOP_KEY
  {
    SameDir(ETC_DIR, k, PRE_STOP_KEY);
  }

  lemma CatalogShown(r: Role, spec: ClusterSpec, presto: ClusterSpec, catalog: ClusterSpec, k: string)
    requires NoClash(r, spec) && k in spec.catalog
    requires Served(r, spec, presto, catalog, CATALOG_DIR + k, spec.catalog[k])
    ensures k in CatalogData(catalog) && CatalogData(catalog)[k] == spec.catalog[k]
  {
    hide CatalogData, NoClash;
    forall q { DirsDoNotMeet(r, spec, q, k); }
    forall q { DirsDoNotMeet(r, spec, k, q); }
    PreStopIsApart(k);
  }

  lemma CoresiteShown(r: Role, spec: ClusterSpec, presto: ClusterSpec, catalog: ClusterSpec, k: string)
    requires NoClash(r, spec) && k in spec.coresite
    requires Served(r, spec, presto, catalog, TMP_DIR + k, spec.coresite[k])
    ensures k in CatalogData(catalog) && CatalogData(catalog)[k] == spec.coresite[k]
  {
    hide CatalogData, NoClash;
    forall q { DirsDoNotMeet(r, spec, q, k); }
    PreStopIsApart(k);
  }

  // With older ConfigMaps a container gets what its spec asks for if they
  // have every entry it asks for, and, where no two mount paths are the same,
  // only then: a changed value stays stale.
  lemma ServedAsWanted(r: Role, spec: ClusterSpec, presto: ClusterSpec, catalog: ClusterSpec)
    requires IsDeployment(r)
    ensures var asWanted := forall path, content :: Served(r, spec, presto, catalog, path, content)
                                                    <==> Wanted(r, spec, path, content);
      && (UpToDate(r, spec, presto, catalog) ==> asWanted)
      && (NoClash(r, spec) && asWanted ==> UpToDate(r, spec, presto, catalog))
  {
    hide Served, Wanted, NoClash, CatalogData;
    if UpToDate(r, spec, presto, catalog) {
      UpToDateSuffices(r, spec, presto, catalog);
    } else if NoClash(r, spec)
           && forall path, content :: Served(r, spec, presto, catalog, path, content)
                                      <==> Wanted(r, spec, path, content) {
      AllAreWanted(r, spec);
      forall k <- EtcOf(spec, r) ensures k in EtcOf(presto, r) && EtcOf(presto, r)[k] == EtcOf(spec, r)[k] {
        EtcShown(r, spec, presto, catalog, k);
      }
      forall k <- spec.catalog ensures k in CatalogData(catalog) && CatalogData(catalog)[k] == spec.catalog[k] {
        CatalogShown(r, spec, presto, catalog, k);
      }
      forall k <- spec.coresite ensures k in CatalogData(catalog) && CatalogData(catalog)[k] == spec.coresite[k] {
        CoresiteShown(r, spec, presto, catalog, k);
      }
    }
  }

  // Two equal paths can hide a stale entry: here the hook's file stands in for
  // an etc file of the same name that the ConfigMap lacks.
  lemma ClashHidesStaleness() returns (spec: ClusterSpec, presto: ClusterSpec)
    ensures forall path, content :: Served(WorkerDeployment, spec, presto, presto, path, content)
                                    <==> Wanted(WorkerDeployment, spec, path, content)
    ensures !UpToDate(WorkerDeployment, spec, presto, presto) && !NoClash(WorkerDeployment, spec)
  {
    presto := ClusterSpec("", "", 1, map[], map[], map[], map[]);
    spec := presto.(workerEtc := map[PRE_STOP_KEY := PRE_STOP_SCRIPT]);
    assert PRE_STOP_KEY in EtcOf(spec, WorkerDeployment) && PRE_STOP_KEY !in EtcOf(presto, WorkerDeployment);
    forall path, content
      ensures Under(ETC_DIR, EtcOf(spec, WorkerDeployment), path, content) <==> IsPreStop(path, content)
    {
    }
  }

  lemma AllAreWanted(r: Role, spec: ClusterSpec)
    ensures forall k <- EtcOf(spec, r) :: Wanted(r, spec, ETC_DIR + k, EtcOf(spec, r)[k])
    ensures forall k <- spec.catalog :: Wanted(r, spec, CATALOG_DIR + k, spec.catalog[k])
    ensures forall k <- spec.coresite :: Wanted(r, spec, TMP_DIR + k, spec.coresite[k])
  {
  }

  // ---- No mount path twice ----

  ghost predicate PathsDistinct(mounts: seq<VolumeMount>) {
    forall i, j :: 0 <= i < j < |mounts| ==> mounts[i].path != mounts[j].path
  }

  ghost function Paths(mounts: seq<VolumeMount>): set<string> {
    set i | 0 <= i < |mounts| :: mounts[i].path
  }

  ghost predicate PathsApart(a: seq<VolumeMount>, b: seq<VolumeMount>) {
    Paths(a) !! Paths(b)
  }

  lemma DistinctConcat(a: seq<VolumeMount>, b: seq<VolumeMount>)
    ensures PathsDistinct(a + b) <==> PathsDistinct(a) && PathsDistinct(b) && PathsApart(a, b)
  {
    var s := a + b;
    assert forall i :: 0 <= i < |a| ==> s[i] == a[i];
    assert forall j :: 0 <= j < |b| ==> s[|a| + j] == b[j];
    if PathsDistinct(s) {
      forall i, j | 0 <= i < j < |b| ensures b[i].path != b[j].path {
        assert s[|a| + i].path != s[|a| + j].path;
      }
      forall p | p in Paths(a) ensures p !in Paths(b) {
        var i :| 0 <= i < |a| && a[i].path == p;
        forall j | 0 <= j < |b| ensures b[j].path != p {
          assert s[i].path != s[|a| + j].path;
        }
      }
    }
    if PathsDistinct(a) && PathsDistinct(b) && PathsApart(a, b) {
      forall i, j | 0 <= i < j < |s| ensures s[i].path != s[j].path {
        if j < |a| {
          assert a[i].path != a[j].path;
        } else if i < |a| {
          assert a[i].path in Paths(a) && b[j - |a|].path in Paths(b);
        } else {
          assert b[i - |a|].path != b[j - |a|].path;
        }
      }
    }
  }

  // The keys of m under dir.
  ghost function PathsUnder(dir: string, m: map<string, string>): set<string> {
    set k | k in m :: dir + k
  }

  lemma GroupPaths(m: map<string, string>, volume: string, dir: string, prefix: string, readOnly: bool)
    ensures var mounts := MountAll(OrderedKeys(m.Keys), volume, dir, prefix, readOnly);
      PathsDistinct(mounts) && Paths(mounts) == PathsUnder(dir, m)
  {
    var keys := OrderedKeys(m.Keys);
    var mounts := MountAll(keys, volume, dir, prefix, readOnly);
    EnumerationHasNoDuplicates(keys, m.Keys);
    hide IsOrdered, OrderedKeys;
    forall i, j | 0 <= i < j < |mounts| ensures mounts[i].path != mounts[j].path {
      SameDir(dir, keys[i], keys[j]);
    }
    forall p | p in PathsUnder(dir, m) ensures p in Paths(mounts) {
      var k :| k in m && p == dir + k;
      var i :| 0 <= i < |keys| && keys[i] == k;
      assert mounts[i].path == p;
    }
    forall p | p in Paths(mounts) ensures p in PathsUnder(dir, m) {
      var i :| 0 <= i < |mounts| && mounts[i].path == p;
      assert keys[i] in m;
    }
  }

  lemma DirsApart(d: string, m: map<string, string>, e: string, n: map<string, string>)
    ensures PathsUnder(d, m) !! PathsUnder(e, n) <==> forall k <- m, q <- n :: d + k != e + q
  {
    if PathsUnder(d, m) !! PathsUnder(e, n) {
      forall k <- m, q <- n ensures d + k != e + q {
        assert d + k in PathsUnder(d, m) && e + q in PathsUnder(e, n);
      }
    }
  }

  lemma PathsOfConcat(a: seq<VolumeMount>, b: seq<VolumeMount>)
    ensures Paths(a + b) == Paths(a) + Paths(b)
  {
    var s := a + b;
    forall p | p in Paths(a) + Paths(b) ensures p in Paths(s) {
      if p in Paths(a) {
        var i :| 0 <= i < |a| && a[i].path == p;
        assert s[i].path == p;
      } else {
        var i :| 0 <= i < |b| && b[i].path == p;
        assert s[|a| + i].path == p;
      }
    }
  }

  lemma GroupsList(etc: map<string, string>, prefix: string, readOnly: bool, spec: ClusterSpec)
    ensures Paths(EtcMounts(etc, prefix, readOnly)) == PathsUnder(ETC_DIR, etc)
    ensures Paths(CatalogMounts(spec)) == PathsUnder(CATALOG_DIR, spec.catalog)
    ensures Paths(CoresiteMounts(spec)) == PathsUnder(TMP_DIR, spec.coresite)
    ensures PathsDistinct(EtcMounts(etc, prefix, readOnly))
    ensures PathsDistinct(CatalogMounts(spec)) && PathsDistinct(CoresiteMounts(spec))
  {
    hide MountAll, OrderedKeys, PathsDistinct, Paths, PathsUnder;
    GroupPaths(etc, "config", ETC_DIR, prefix, readOnly);
    GroupPaths(spec.catalog, "catalog", CATALOG_DIR, "", false);
    GroupPaths(spec.coresite, "catalog", TMP_DIR, "", false);
  }

  lemma GroupsApart(etc: map<string, string>, prefix: string, readOnly: bool, spec: ClusterSpec)
    ensures PathsApart(EtcMounts(etc, prefix, readOnly), CatalogMounts(spec)) <==> NoEtcKeyInCatalog(etc, spec)
    ensures PathsApart(EtcMounts(etc, prefix, readOnly) + CatalogMounts(spec), CoresiteMounts(spec))
  {
    hide EtcMounts, CatalogMounts, CoresiteMounts, PathsDistinct, Paths, PathsUnder;
    GroupsList(etc, prefix, readOnly, spec);
    PathsOfConcat(EtcMounts(etc, prefix, readOnly), CatalogMounts(spec));
    DirsApart(ETC_DIR, etc, CATALOG_DIR, spec.catalog);
    DirsApart(ETC_DIR, etc, TMP_DIR, spec.coresite);
    DirsApart(CATALOG_DIR, spec.catalog, TMP_DIR, spec.coresite);
    forall k, q ensures TMP_DIR + k != ETC_DIR + q && TMP_DIR + k != CATALOG_DIR + q { TmpIsApart(k, q); }
    forall k, q ensures CATALOG_DIR + k == ETC_DIR + q <==> q == "catalog/" + k { CatalogInsideEtc(k, q); }
  }

  lemma SharedPathsDistinct(etc: map<string, string>, prefix: string, readOnly: bool, spec: ClusterSpec)
    ensures PathsDistinct(EtcMounts(etc, prefix, readOnly) + CatalogMounts(spec) + CoresiteMounts(spec))
            <==> NoEtcKeyInCatalog(etc, spec)
  {
    hide PathsDistinct, PathsApart, EtcMounts, CatalogMounts, CoresiteMounts;
    var mounts := EtcMounts(etc, prefix, readOnly);
    GroupsList(etc, prefix, readOnly, spec);
    GroupsApart(etc, prefix, readOnly, spec);
    DistinctConcat(mounts, CatalogMounts(spec));
    DistinctConcat(mounts + CatalogMounts(spec), CoresiteMounts(spec));
  }

  // The coordinator's mount paths are pairwise different exactly when no etc
  // key reaches into the catalog directory.
  lemma CoordinatorPathsDistinct(spec: ClusterSpec)
    ensures PathsDistinct(CoordinatorMounts(spec)) <==> NoClash(CoordinatorDeployment, spec)
  {
    hide PathsDistinct, EtcMounts, CatalogMounts, CoresiteMounts;
    SharedPathsDistinct(spec.coordinatorEtc, COORDINATOR_PREFIX, false, spec);
  }

  lemma HookFirst(hook: VolumeMount, a: seq<VolumeMount>, b: seq<VolumeMount>, c: seq<VolumeMount>)
    ensures [hook] + a + b + c == [hook] + (a + b + c)
    ensures PathsDistinct([hook])
  {
  }

  // For the workers the pre-stop hook's own name must be free as well.
  lemma WorkerPathsDistinct(spec: ClusterSpec)
    ensures PathsDistinct(WorkerMounts(spec))
            <==> NoClash(WorkerDeployment, spec)
  {
    hide PathsDistinct, PathsApart, EtcMounts, CatalogMounts, CoresiteMounts, NoEtcKeyInCatalog;
    var etc := EtcMounts(spec.workerEtc, WORKER_PREFIX, true);
    var catalog, coresite := CatalogMounts(spec), CoresiteMounts(spec);
    PreStopClashes(spec);
    SharedPathsDistinct(spec.workerEtc, WORKER_PREFIX, true, spec);
    HookFirst(PRE_STOP_MOUNT, etc, catalog, coresite);
    DistinctConcat([PRE_STOP_MOUNT], etc + catalog + coresite);
  }

  lemma PreStopClashes(spec: ClusterSpec)
    ensures PathsApart([PRE_STOP_MOUNT],
                       EtcMounts(spec.workerEtc, WORKER_PREFIX, true) + CatalogMounts(spec) + CoresiteMounts(spec))
            <==> PRE_STOP_KEY !in spec.workerEtc
  {
    var hook := map[PRE_STOP_KEY := PRE_STOP_SCRIPT];
    assert Paths([PRE_STOP_MOUNT]) == PathsUnder(ETC_DIR, hook) by {
      assert [PRE_STOP_MOUNT][0].path == ETC_DIR + PRE_STOP_KEY && PRE_STOP_KEY in hook;
    }
    hide EtcMounts, CatalogMounts, CoresiteMounts, PathsDistinct, Paths, PathsUnder;
    GroupsList(spec.workerEtc, WORKER_PREFIX, true, spec);
    PathsOfConcat(EtcMounts(spec.workerEtc, WORKER_PREFIX, true), CatalogMounts(spec));
    PathsOfConcat(EtcMounts(spec.workerEtc, WORKER_PREFIX, true) + CatalogMounts(spec), CoresiteMounts(spec));
    DirsApart(ETC_DIR, hook, ETC_DIR, spec.workerEtc);
    DirsApart(ETC_DIR, hook, CATALOG_DIR, spec.catalog);
    DirsApart(ETC_DIR, hook, TMP_DIR, spec.coresite);
    forall k ensures TMP_DIR + k != ETC_DIR + PRE_STOP_KEY { TmpIsApart(k, PRE_STOP_KEY); }
    forall k ensures CATALOG_DIR + k != ETC_DIR + PRE_STOP_KEY { PreStopIsApart(k); }
    forall k ensures ETC_DIR + PRE_STOP_KEY == ETC_DIR + k <==> k == PRE_STOP_KEY { SameDir(ETC_DIR, k, PRE_STOP_KEY); }
  }

  // ConfigMap keys hold no slash, so an accepted spec has no such clash.
  lemma SlashFreeKeysNeverClash(etc: map<string, string>, spec: ClusterSpec)
    requires forall k <- etc :: '/' !in k
    ensures NoEtcKeyInCatalog(etc, spec)
  {
    forall k <- spec.catalog ensures "catalog/" + k !in etc {
      assert ("catalog/" + k)[7] == '/';
    }
  }

  // ---- Routing ----

  predicate Selects(selector: map<string, string>, labels: map<string, string>) {
    forall k <- selector :: k in labels && labels[k] == selector[k]
  }

  // A selector applies to the pods of its own namespace.
  predicate SelectsIn(namespace: string, selector: map<string, string>,
                      podNamespace: string, labels: map<string, string>)
  {
    namespace == podNamespace && Selects(selector, labels)
  }

  // A cluster's Service reaches exactly its own coordinator's pods, and a
  // Deployment's selector its own pods: no pod is picked by two clusters, or
  // by two roles of one. A Deployment's pods live in its own namespace.
  lemma Routing(c: Cluster, d: Cluster, r: Role, q: Role)
    requires IsDeployment(r) && IsDeployment(q)
    ensures var service, owner := DesiredChild(c, CoordinatorService), DesiredChild(c, r);
      var pods := TemplateOf(d, q).labels;
      && service.Service? && owner.Deployment?
      && (SelectsIn(service.namespace, service.selector, d.namespace, pods)
          <==> c.namespace == d.namespace && c.name == d.name && q == CoordinatorDeployment)
      && (SelectsIn(owner.namespace, owner.selector, d.namespace, pods)
          <==> c.namespace == d.namespace && c.name == d.name && r == q)
    ensures var pods := DesiredChild(d, q);
      pods.Deployment? && pods.namespace == d.namespace && pods.template == TemplateOf(d, q)
  {
    hide CoordinatorMounts, WorkerMounts, PrestoData, ConfigVolumes;
    var cl, wl, dl := CoordinatorLabels(c.name), WorkerLabels(c.name), CoordinatorLabels(d.name);
    assert cl["app"] != wl["app"] && "app" != "controller";
    assert cl["controller"] == c.name == wl["controller"];
  }
}

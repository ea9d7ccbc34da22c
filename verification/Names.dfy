// Where the children of a cluster live.
module Names {
  import opened Kubernetes

  datatype Role = PrestoConfigMap | CatalogConfigMap | CoordinatorDeployment | CoordinatorService | WorkerDeployment

  function PrestoConfigMapName(cluster: string): string { cluster + "-presto-configmap" }

  function CatalogConfigMapName(cluster: string): string { cluster + "-catalog-configmap" }

  function CoordinatorDeploymentName(cluster: string): string { cluster + "-coordinator" }

  function CoordinatorServiceName(cluster: string): string { cluster }

  function WorkerDeploymentName(cluster: string): string { cluster + "-worker" }

  function ClusterKey(c: Request): Key { Key(PrestoClusterKind, c.namespace, c.name) }

  function ChildKey(c: Request, r: Role): Key {
    match r
    case PrestoConfigMap => Key(ConfigMapKind, c.namespace, PrestoConfigMapName(c.name))
    case CatalogConfigMap => Key(ConfigMapKind, c.namespace, CatalogConfigMapName(c.name))
    case CoordinatorDeployment => Key(DeploymentKind, c.namespace, CoordinatorDeploymentName(c.name))
    case CoordinatorService => Key(ServiceKind, c.namespace, CoordinatorServiceName(c.name))
    case WorkerDeployment => Key(DeploymentKind, c.namespace, WorkerDeploymentName(c.name))
  }

  // Every address that belongs to a cluster: its own and its five children's.
  ghost predicate Owns(c: Request, k: Key) {
    k == ClusterKey(c) || exists r :: k == ChildKey(c, r)
  }

  lemma SameSuffix(a: string, b: string, suffix: string)
    requires a + suffix == b + suffix
    ensures a == b
  {
    assert |a| == |b|;
    assert a == (a + suffix)[..|a|] == (b + suffix)[..|b|] == b;
  }

  // Two names that differ at the same distance from their ends are different.
  lemma SuffixesDiffer(a: string, s: string, b: string, t: string, fromEnd: nat)
    requires 0 < fromEnd <= |s| && fromEnd <= |t|
    requires s[|s| - fromEnd] != t[|t| - fromEnd]
    ensures a + s != b + t
  {
    assert (a + s)[|a + s| - fromEnd] == s[|s| - fromEnd];
    assert (b + t)[|b + t| - fromEnd] == t[|t| - fromEnd];
  }

  // The map (cluster, role) -> address is injective, suffix collisions
  // between different roles of different clusters included.
  lemma ChildKeyInjective(c: Request, r: Role, d: Request, q: Role)
    requires ChildKey(c, r) == ChildKey(d, q)
    ensures c == d && r == q
  {
    SuffixesDiffer(c.name, "-presto-configmap", d.name, "-catalog-configmap", 11);
    SuffixesDiffer(c.name, "-catalog-configmap", d.name, "-presto-configmap", 11);
    SuffixesDiffer(c.name, "-coordinator", d.name, "-worker", 2);
    SuffixesDiffer(c.name, "-worker", d.name, "-coordinator", 2);
    match r
    case PrestoConfigMap => SameSuffix(c.name, d.name, "-presto-configmap");
    case CatalogConfigMap => SameSuffix(c.name, d.name, "-catalog-configmap");
    case CoordinatorDeployment => SameSuffix(c.name, d.name, "-coordinator");
    case CoordinatorService =>
    case WorkerDeployment => SameSuffix(c.name, d.name, "-worker");
  }

  // No address belongs to two clusters.
  lemma OwnersAreUnique(c: Request, d: Request, k: Key)
    requires Owns(c, k) && Owns(d, k)
    ensures c == d
  {
    if k != ClusterKey(c) && k != ClusterKey(d) {
      var r :| k == ChildKey(c, r);
      var q :| k == ChildKey(d, q);
      ChildKeyInjective(c, r, d, q);
    }
  }

  // A request's own five addresses are pairwise different.
  lemma RolesApart(c: Request, r: Role, q: Role)
    ensures ChildKey(c, r) == ChildKey(c, q) <==> r == q
  {
    if ChildKey(c, r) == ChildKey(c, q) {
      ChildKeyInjective(c, r, c, q);
    }
  }

  lemma ClusterIsNoChild(c: Request, d: Request, r: Role)
    ensures ClusterKey(d) != ChildKey(c, r)
  {
  }
}

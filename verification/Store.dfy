// The API server as the operator sees it: every address keeps the list of
// values it has held, calls may fail with or without effect, and a read may
// return an older value.
module ApiStore {
  import opened Kubernetes
  import opened Names

  // The values each address has held, oldest first; None while absent.
  type Store = map<Key, seq<Option<Object>>>

  function History(st: Store, k: Key): (h: seq<Option<Object>>)
    ensures h != []
  {
    if k in st && st[k] != [] then st[k] else [None]
  }

  function Current(st: Store, k: Key): Option<Object> {
    var h := History(st, k);
    h[|h| - 1]
  }

  function Record(st: Store, k: Key, v: Option<Object>): Store {
    st[k := History(st, k) + [v]]
  }

  // A PrestoCluster's resource version is its place in the history of its
  // address. Nothing reads the versions of the other kinds.
  function Stamp(o: Object, version: nat): Object {
    if o.PrestoCluster? then PrestoCluster(o.cluster.(resourceVersion := version)) else o
  }

  function Write(st: Store, k: Key, o: Object): Store {
    Record(st, k, Some(Stamp(o, |History(st, k)|)))
  }

  // Every object is stored under its own address, and carries its version.
  ghost predicate WellKeyed(st: Store) {
    forall k, i :: 0 <= i < |History(st, k)| && History(st, k)[i].Some? ==> Fits(History(st, k)[i].value, k, i)
  }

  predicate Fits(o: Object, k: Key, version: nat) {
    KeyOf(o) == k && (o.PrestoCluster? ==> o.cluster.resourceVersion == version)
  }

  // ---- Calls ----

  datatype Fault = NoFault | Rejected | ReplyLost

  datatype Read = Latest | Version(index: nat)

  // What the environment decides about one call.
  datatype Choice = Choice(fault: Fault, read: Read)

  const CLEAN: Choice := Choice(NoFault, Latest)

  datatype Call =
    | Get(key: Key)
    | Create(obj: Object)
    | Update(obj: Object)
    | UpdateStatus(cluster: Cluster)
    | Delete(key: Key)

  datatype Reply = Found(obj: Object) | NotFound | Done | Error

  function CallKey(call: Call): Key {
    match call
    case Get(k) => k
    case Create(o) => KeyOf(o)
    case Update(o) => KeyOf(o)
    case UpdateStatus(cl) => KeyOf(PrestoCluster(cl))
    case Delete(k) => k
  }

  function ReadAt(st: Store, k: Key, read: Read): Option<Object> {
    if read.Version? && read.index < |History(st, k)| then History(st, k)[read.index] else Current(st, k)
  }

  // An update of a Deployment replaces its spec and keeps its status.
  function KeepStatus(o: Object, stored: Object): Object {
    if o.Deployment? && stored.Deployment? then o.(available := stored.available) else o
  }

  // The server's own rule for a write that reaches it.
  predicate Accepts(st: Store, call: Call) {
    var cur := Current(st, CallKey(call));
    match call
    case Get(_) => false
    case Create(_) => cur.None?
    case Update(_) => cur.Some?
    case UpdateStatus(cl) =>
      cur.Some? && cur.value.PrestoCluster? && cur.value.cluster.resourceVersion == cl.resourceVersion
    case Delete(_) => cur.Some?
  }

  // What an accepted call leaves at its address; None for a deletion.
  function NewValue(st: Store, call: Call): Option<Object>
    requires Accepts(st, call)
  {
    var cur := Current(st, CallKey(call));
    match call
    case Create(o) => Some(o)
    case Update(o) => Some(KeepStatus(o, cur.value))
    case UpdateStatus(cl) => Some(PrestoCluster(cur.value.cluster.(availableWorkers := cl.availableWorkers)))
    case _ => None
  }

  function Effect(st: Store, call: Call): Store
    requires Accepts(st, call)
  {
    var v := NewValue(st, call);
    if v.Some? then Write(st, CallKey(call), v.value) else Record(st, CallKey(call), None)
  }

  predicate Applies(st: Store, call: Call, ch: Choice) {
    !ch.fault.Rejected? && Accepts(st, call)
  }

  function StoreAfter(st: Store, call: Call, ch: Choice): Store {
    if Applies(st, call, ch) then Effect(st, call) else st
  }

  function ReplyTo(st: Store, call: Call, ch: Choice): Reply {
    if !ch.fault.NoFault? then Error
    else if call.Get? then
      var o := ReadAt(st, call.key, ch.read);
      if o.Some? then Found(o.value) else NotFound
    else if Accepts(st, call) then Done
    else if call.Delete? then NotFound
    else Error
  }

  // ---- Everyone else ----

  datatype EnvAction =
    | EditSpec(request: Request, spec: ClusterSpec)    // the user edits the CR
    | SetAvailable(key: Key, count: int32)             // the deployment controller reports
    | Scale(key: Key, count: int32)                    // someone scales a Deployment
    | ForeignPut(obj: Object)                       // someone creates or overwrites
    | ForeignDelete(key: Key)                          // someone deletes

  function EnvKey(e: EnvAction): Key {
    match e
    case EditSpec(c, _) => ClusterKey(c)
    case SetAvailable(k, _) => k
    case Scale(k, _) => k
    case ForeignPut(o) => KeyOf(o)
    case ForeignDelete(k) => k
  }

  function ApplyEnv(st: Store, e: EnvAction): Store {
    var k := EnvKey(e);
    var cur := Current(st, k);
    match e
    case EditSpec(_, spec) =>
      if cur.Some? && cur.value.PrestoCluster?
      then Write(st, k, PrestoCluster(cur.value.cluster.(spec := spec))) else st
    case SetAvailable(_, n) =>
      if cur.Some? && cur.value.Deployment? then Write(st, k, cur.value.(available := n)) else st
    case Scale(_, n) =>
      if cur.Some? && cur.value.Deployment? then Write(st, k, cur.value.(replicas := n)) else st
    case ForeignPut(o) => Write(st, k, o)
    case ForeignDelete(_) => if cur.Some? then Record(st, k, None) else st
  }

  // ---- Histories only grow, one address at a time ----

  ghost predicate Extends(st: Store, st': Store) {
    forall k :: History(st, k) <= History(st', k)
  }

  ghost predicate OnlyAt(st: Store, st': Store, k: Key) {
    forall q :: q != k ==> History(st', q) == History(st, q)
  }

  lemma RecordFacts(st: Store, k: Key, v: Option<Object>)
    ensures History(Record(st, k, v), k) == History(st, k) + [v]
    ensures Current(Record(st, k, v), k) == v
    ensures OnlyAt(st, Record(st, k, v), k)
    ensures Extends(st, Record(st, k, v))
  {
  }

  lemma WriteKeepsKeys(st: Store, k: Key, o: Object)
    requires WellKeyed(st) && KeyOf(o) == k
    ensures WellKeyed(Write(st, k, o))
  {
    RecordFacts(st, k, Some(Stamp(o, |History(st, k)|)));
  }

  lemma CallFacts(st: Store, call: Call, ch: Choice)
    requires WellKeyed(st)
    ensures WellKeyed(StoreAfter(st, call, ch))
    ensures Extends(st, StoreAfter(st, call, ch))
    ensures OnlyAt(st, StoreAfter(st, call, ch), CallKey(call))
  {
    if Applies(st, call, ch) {
      var k := CallKey(call);
      var v := NewValue(st, call);
      if v.Some? {
        RecordFacts(st, k, Some(Stamp(v.value, |History(st, k)|)));
        WriteKeepsKeys(st, k, v.value);
      } else {
        RecordFacts(st, k, None);
      }
    }
  }

  lemma EnvFacts(st: Store, e: EnvAction)
    requires WellKeyed(st)
    ensures WellKeyed(ApplyEnv(st, e))
    ensures Extends(st, ApplyEnv(st, e))
    ensures OnlyAt(st, ApplyEnv(st, e), EnvKey(e))
  {
    var k := EnvKey(e);
    var cur := Current(st, k);
    RecordFacts(st, k, None);
    forall o | KeyOf(o) == k
      ensures WellKeyed(Write(st, k, o)) && Extends(st, Write(st, k, o)) && OnlyAt(st, Write(st, k, o), k)
    {
      RecordFacts(st, k, Some(Stamp(o, |History(st, k)|)));
      WriteKeepsKeys(st, k, o);
    }
    assert cur.Some? ==> Fits(cur.value, k, |History(st, k)| - 1);
  }
}

/**
 * The reconcile run of an operator: resources are added one by one, then the orphaned resources
 * of every kind are deleted by concurrent tasks. The API server is a contract on its store.
 */
module ClusterResources {
  import opened Wrappers
  import opened Kubernetes
  import opened ObjectOverrides

  const K8S_APP_INSTANCE_KEY := "app.kubernetes.io/instance"
  const K8S_APP_MANAGED_BY_KEY := "app.kubernetes.io/managed-by"
  const K8S_APP_NAME_KEY := "app.kubernetes.io/name"
  const DO_NOT_SCHEDULE_KEY := "stackable.tech/do-not-schedule"
  const DO_NOT_SCHEDULE_VALUE := "cluster-stopped"

  datatype Strategy = Default | ReconciliationPaused | ClusterStopped | NoApply

  /** Orphans are only deleted by the strategies that also apply resources. */
  predicate DeletesOrphans(strategy: Strategy) {
    strategy == Default || strategy == ClusterStopped
  }

  datatype ClusterError =
    | MissingObjectKey(key: string)
    | MissingLabel(name: string)
    | UnexpectedLabelContent(name: string, expected: string, actual: string)
    | ApplyObjectOverrides
    | GetResource
    | ApplyPatch
    | ListClusterResources
    | DeleteOrphanedResource

  /** What identifies the resources of one cluster, and how a run treats them. */
  datatype Cluster = Cluster(
    namespace: string,
    appInstance: string,
    appName: string,
    clusterUid: Uid,
    manager: string,
    strategy: Strategy,
    overrides: seq<DynamicObject>)

  function CheckLabel(labels: map<string, string>, name: string, expected: string): Result<(), ClusterError> {
    if name !in labels then Err(MissingLabel(name))
    else if labels[name] == expected then Ok(())
    else Err(UnexpectedLabelContent(name, expected, labels[name]))
  }

  /** Checks the expected labels in order and reports the first that is missing or differs. */
  function CheckLabels(labels: map<string, string>, expected: seq<(string, string)>): (r: Result<(), ClusterError>)
    ensures r.Ok? <==> forall e :: e in expected ==> e.0 in labels && labels[e.0] == e.1
  {
    if expected == [] then Ok(())
    else
      var _ :- CheckLabel(labels, expected[0].0, expected[0].1);
      CheckLabels(labels, expected[1..])
  }

  function ExpectedLabels(c: Cluster): seq<(string, string)> {
    [(K8S_APP_INSTANCE_KEY, c.appInstance), (K8S_APP_MANAGED_BY_KEY, c.manager), (K8S_APP_NAME_KEY, c.appName)]
  }

  /** A stopped cluster scales workloads to zero and moves daemon sets to unreachable nodes. */
  function MaybeMutate(o: Object, strategy: Strategy): (r: Object)
    ensures r.kind == o.kind && r.meta == o.meta && r.spec.other == o.spec.other
    ensures strategy != ClusterStopped || o.kind !in {StatefulSet, Deployment, DaemonSet} ==> r == o
    ensures o.kind != DaemonSet ==> r.spec.nodeSelector == o.spec.nodeSelector
    ensures o.kind == DaemonSet ==> r.spec.replicas == o.spec.replicas
  {
    if strategy != ClusterStopped then o
    else
      match o.kind
      case StatefulSet => o.(spec := o.spec.(replicas := Some(0)))
      case Deployment => o.(spec := o.spec.(replicas := Some(0)))
      case DaemonSet => o.(spec := o.spec.(nodeSelector := map[DO_NOT_SCHEDULE_KEY := DO_NOT_SCHEDULE_VALUE]))
      case _ => o
  }

  /** Stopped workloads ask for no pods, or for nodes that do not exist. */
  lemma StoppedWorkloads(o: Object)
    ensures o.kind == StatefulSet || o.kind == Deployment ==>
              MaybeMutate(o, ClusterStopped) == o.(spec := o.spec.(replicas := Some(0)))
    ensures o.kind == DaemonSet ==>
              MaybeMutate(o, ClusterStopped) ==
              o.(spec := o.spec.(nodeSelector := map["stackable.tech/do-not-schedule" := "cluster-stopped"]))
  {
  }

  /** The object that `add` sends to the API server. */
  function Prepare(c: Cluster, resource: Object): Result<Object, ClusterError> {
    var _ :- CheckLabels(resource.meta.labels, ExpectedLabels(c));
    var (o, merged) := ApplyTo(MaybeMutate(resource, c.strategy), c.overrides);
    if merged then Ok(o) else Err(ApplyObjectOverrides)
  }

  predicate HasLabel(o: Object, key: string, value: string) {
    key in o.meta.labels && o.meta.labels[key] == value
  }

  /** The three labels that identify the resources of a cluster. */
  predicate Identified(c: Cluster, o: Object) {
    && HasLabel(o, "app.kubernetes.io/instance", c.appInstance)
    && HasLabel(o, "app.kubernetes.io/managed-by", c.manager)
    && HasLabel(o, "app.kubernetes.io/name", c.appName)
  }

  /** The error of a label that is missing or has another content. */
  function LabelError(o: Object, key: string, value: string): ClusterError
    requires !HasLabel(o, key, value)
  {
    if key in o.meta.labels then UnexpectedLabelContent(key, value, o.meta.labels[key]) else MissingLabel(key)
  }

  lemma {:induction false} ChecksInTurn(labels: map<string, string>, first: (string, string), rest: seq<(string, string)>)
    ensures CheckLabels(labels, [first] + rest) ==
            if CheckLabel(labels, first.0, first.1).Ok? then CheckLabels(labels, rest)
            else CheckLabel(labels, first.0, first.1)
  {
    assert ([first] + rest)[1..] == rest;
  }

  /** The labels are checked in the order instance, managed-by, name. */
  lemma LabelChecks(c: Cluster, o: Object)
    ensures var r := CheckLabels(o.meta.labels, ExpectedLabels(c));
            if !HasLabel(o, "app.kubernetes.io/instance", c.appInstance) then
              r == Err(LabelError(o, "app.kubernetes.io/instance", c.appInstance))
            else if !HasLabel(o, "app.kubernetes.io/managed-by", c.manager) then
              r == Err(LabelError(o, "app.kubernetes.io/managed-by", c.manager))
            else if !HasLabel(o, "app.kubernetes.io/name", c.appName) then
              r == Err(LabelError(o, "app.kubernetes.io/name", c.appName))
            else r == Ok(())
  {
    var instance := (K8S_APP_INSTANCE_KEY, c.appInstance);
    var manager := (K8S_APP_MANAGED_BY_KEY, c.manager);
    var name := (K8S_APP_NAME_KEY, c.appName);
    assert ExpectedLabels(c) == [instance] + ([manager] + ([name] + []));
    ChecksInTurn(o.meta.labels, instance, [manager] + ([name] + []));
    ChecksInTurn(o.meta.labels, manager, [name] + []);
    ChecksInTurn(o.meta.labels, name, []);
  }

  /**
   * What `add` sends, under every strategy: it accepts a resource exactly if it carries the three
   * labels of the cluster and every override that matches it can be parsed, and sends the mutated
   * resource with these overrides merged in order; else the first failed check is the error.
   */
  lemma PrepareExactly(c: Cluster, resource: Object)
    ensures Prepare(c, resource).Ok? <==>
            Identified(c, resource) && forall m :: m in c.overrides && Matches(resource, m) ==> m.spec.Some?
    ensures Prepare(c, resource).Ok? ==>
              Prepare(c, resource).value == MergeEach(MaybeMutate(resource, c.strategy), Matching(resource, c.overrides))
    ensures !Identified(c, resource) ==> Prepare(c, resource) == Err(CheckLabels(resource.meta.labels, ExpectedLabels(c)).error)
    ensures Identified(c, resource) && Prepare(c, resource).Err? ==> Prepare(c, resource).error == ApplyObjectOverrides
  {
    var mutated := MaybeMutate(resource, c.strategy);
    LabelChecks(c, resource);
    ApplyToFoldsTheMatchingOverrides(mutated, c.overrides);
    MatchingDependsOnIdentity(mutated, resource, c.overrides);
  }

  // ----- The API server -----

  /** The stored objects, every uid the server ever issued, and the kinds the operator may not list. */
  datatype Server = Server(store: map<Key, Object>, used: set<Uid>, forbidden: set<Kind>)

  ghost predicate ValidServer(server: Server) {
    && (forall k :: k in server.store ==> KeyOf(server.store[k]) == k)
    && (forall k :: k in server.store && server.store[k].meta.uid.Some? ==>
          server.store[k].meta.uid.value in server.used)
    && UniqueUids(server.store)
  }

  ghost predicate UniqueUids(store: map<Key, Object>) {
    forall k, l :: k in store && l in store && k != l && store[k].meta.uid.Some? ==>
      store[k].meta.uid != store[l].meta.uid
  }

  /** Neither stopping nor overrides change the key of a resource. */
  lemma PrepareKeepsKey(c: Cluster, resource: Object)
    ensures Prepare(c, resource).Ok? ==> KeyOf(Prepare(c, resource).value) == KeyOf(resource)
  {
    ApplyToFoldsTheMatchingOverrides(MaybeMutate(resource, c.strategy), c.overrides);
  }

  /**
   * Server-side apply stores an object under the key of the patch that agrees with every field the
   * patch sets. An existing object keeps its uid, a new one gets a uid never issued before.
   */
  ghost predicate ApplyContract(server: Server, patch: Object, stored: Object) {
    var k := KeyOf(patch);
    && KeyOf(stored) == k
    && (forall l :: l in patch.meta.labels ==> l in stored.meta.labels && stored.meta.labels[l] == patch.meta.labels[l])
    && patch.meta.owners <= stored.meta.owners
    && (patch.spec.replicas.Some? ==> stored.spec.replicas == patch.spec.replicas)
    && (forall l :: l in patch.spec.nodeSelector ==>
          l in stored.spec.nodeSelector && stored.spec.nodeSelector[l] == patch.spec.nodeSelector[l])
    && if k in server.store then stored.meta.uid == server.store[k].meta.uid
       else stored.meta.uid.Some? && stored.meta.uid.value !in server.used
  }

  function Applied(server: Server, stored: Object): Server {
    server.(
      store := server.store[KeyOf(stored) := stored],
      used := server.used + if stored.meta.uid.Some? then {stored.meta.uid.value} else {})
  }

  /** What the label selector of a cluster selects in its namespace. */
  predicate Selected(c: Cluster, o: Object) {
    && KeyOf(o).namespace == c.namespace
    && CheckLabels(o.meta.labels, ExpectedLabels(c)).Ok?
  }

  /** The objects that belong to this very cluster: selected and directly owned. */
  predicate Belongs(c: Cluster, o: Object) {
    Selected(c, o) && c.clusterUid in o.meta.owners
  }

  /** The same written out: the namespace, the three labels and the owner. */
  predicate OfCluster(c: Cluster, o: Object) {
    o.meta.namespace.GetOr("") == c.namespace && Identified(c, o) && c.clusterUid in o.meta.owners
  }

  lemma BelongingIsOfCluster(c: Cluster, o: Object)
    ensures Belongs(c, o) <==> OfCluster(c, o)
  {
    LabelChecks(c, o);
  }

  predicate Orphan(c: Cluster, ids: set<Uid>, o: Object) {
    Belongs(c, o) && o.meta.uid.Some? && o.meta.uid.value !in ids
  }

  predicate NoDuplicates(s: seq<Object>) {
    forall i, j :: 0 <= i < j < |s| ==> s[i] != s[j]
  }

  /** A listing holds every selected object of a kind once, in any order. */
  ghost predicate IsListing(c: Cluster, store: map<Key, Object>, kind: Kind, listing: seq<Object>) {
    && NoDuplicates(listing)
    && (forall o :: o in listing ==> KeyOf(o) in store && store[KeyOf(o)] == o && o.kind == kind && Selected(c, o))
    && (forall k :: k in store && k.kind == kind && Selected(c, store[k]) ==> store[k] in listing)
  }

  /** Keeps the directly owned objects. */
  function Retain(c: Cluster, listing: seq<Object>): (r: seq<Object>)
    ensures forall o :: o in r <==> o in listing && c.clusterUid in o.meta.owners
    ensures NoDuplicates(listing) ==> NoDuplicates(r)
  {
    if listing == [] then []
    else
      var rest := Retain(c, listing[1..]);
      if c.clusterUid in listing[0].meta.owners then [listing[0]] + rest else rest
  }

  /** The unrecorded objects, or `None` if some object has no uid. */
  function CollectOrphans(ids: set<Uid>, deployed: seq<Object>): (r: Option<seq<Object>>)
    ensures r.Some? <==> forall o :: o in deployed ==> o.meta.uid.Some?
    ensures r.Some? ==> forall o :: o in r.value <==> o in deployed && o.meta.uid.value !in ids
    ensures r.Some? && NoDuplicates(deployed) ==> NoDuplicates(r.value)
  {
    if deployed == [] then Some([])
    else if deployed[0].meta.uid.None? then None
    else
      match CollectOrphans(ids, deployed[1..])
      case None => None
      case Some(rest) =>
        if deployed[0].meta.uid.value !in ids then Some([deployed[0]] + rest) else Some(rest)
  }

  // ----- The run as a transition system -----

  /** One deletion task; `Draining` holds the orphans still to be deleted. */
  datatype Task = NotStarted | Draining(orphans: seq<Object>) | Done | Skipped | Failed

  /**
   * `ids` are the recorded uids and `tasks` the deletion tasks once they have been started; the task
   * of a kind without an entry has not begun. History:
   * `added` maps the keys of successfully added objects to the recorded uids, `touched` holds the
   * keys that were applied, whether or not the answer of the server arrived.
   */
  datatype State = State(
    server: Server,
    ids: set<Uid>,
    added: map<Key, Uid>,
    touched: set<Key>,
    tasks: Option<map<Kind, Task>>)

  /**
   * The choices of caller, scheduler and API server. A request can fail without effect, or take
   * effect although its answer is lost (`answered` is false). A failed task does not stop the
   * others here, so every moment at which the real join cancels them is covered.
   */
  datatype Step =
    | AddRejected
    | AddFetched(resource: Object)
    | AddUnapplied(resource: Object)
    | AddApplied(resource: Object, stored: Object, answered: bool)
    | StartDeletion
    | SkipTask(kind: Kind)
    | ListForbidden(kind: Kind)
    | ListFailed(kind: Kind)
    | Listed(kind: Kind, listing: seq<Object>)
    | DeleteFirst(kind: Kind, answered: bool)
    | DeleteFailed(kind: Kind)
    | FinishTask(kind: Kind)

  ghost predicate Initial(s: State) {
    ValidServer(s.server) && s.ids == {} && s.added == map[] && s.touched == {} && s.tasks == None
  }

  function TaskOf(s: State, kind: Kind): Option<Task> {
    if s.tasks.None? then None
    else if kind in s.tasks.value then Some(s.tasks.value[kind])
    else Some(NotStarted)
  }

  predicate HasOrphansLeft(s: State, kind: Kind) {
    match TaskOf(s, kind)
    case Some(Draining(orphans)) => orphans != []
    case _ => false
  }

  ghost predicate Enabled(c: Cluster, s: State, step: Step) {
    match step
    case AddRejected => s.tasks.None?
    case AddFetched(resource) =>
      && s.tasks.None? && c.strategy == ReconciliationPaused
      && Prepare(c, resource).Ok?
      && Prepare(c, resource).value.meta.namespace.Some?
      && KeyOf(Prepare(c, resource).value) in s.server.store
    case AddUnapplied(resource) => s.tasks.None? && c.strategy == NoApply && Prepare(c, resource).Ok?
    case AddApplied(resource, stored, _) =>
      && s.tasks.None? && (c.strategy == Default || c.strategy == ClusterStopped)
      && Prepare(c, resource).Ok?
      && ApplyContract(s.server, Prepare(c, resource).value, stored)
    case StartDeletion => s.tasks.None?
    case SkipTask(kind) => TaskOf(s, kind) == Some(NotStarted) && !DeletesOrphans(c.strategy)
    case ListForbidden(kind) =>
      TaskOf(s, kind) == Some(NotStarted) && DeletesOrphans(c.strategy) && kind in s.server.forbidden
    case ListFailed(kind) => TaskOf(s, kind) == Some(NotStarted) && DeletesOrphans(c.strategy)
    case Listed(kind, listing) =>
      && TaskOf(s, kind) == Some(NotStarted) && DeletesOrphans(c.strategy)
      && kind !in s.server.forbidden && IsListing(c, s.server.store, kind, listing)
    case DeleteFirst(kind, _) =>
      && HasOrphansLeft(s, kind)
      && KeyOf(s.tasks.value[kind].orphans[0]) in s.server.store
    case DeleteFailed(kind) => HasOrphansLeft(s, kind)
    case FinishTask(kind) => TaskOf(s, kind) == Some(Draining([]))
  }

  function Record(s: State, key: Key, uid: Option<Uid>): State {
    if uid.None? then s else s.(ids := s.ids + {uid.value}, added := s.added[key := uid.value])
  }

  function SetTask(s: State, kind: Kind, task: Task): State
    requires s.tasks.Some?
  {
    s.(tasks := Some(s.tasks.value[kind := task]))
  }

  ghost function Exec(c: Cluster, s: State, step: Step): State
    requires Enabled(c, s, step)
  {
    match step
    case AddRejected => s
    case AddFetched(resource) =>
      var k := KeyOf(Prepare(c, resource).value);
      Record(s, k, s.server.store[k].meta.uid)
    case AddUnapplied(resource) =>
      var o := Prepare(c, resource).value;
      Record(s, KeyOf(o), o.meta.uid)
    case AddApplied(_, stored, answered) =>
      var s' := s.(server := Applied(s.server, stored), touched := s.touched + {KeyOf(stored)});
      if answered then Record(s', KeyOf(stored), stored.meta.uid) else s'
    case StartDeletion => s.(tasks := Some(map[]))
    case SkipTask(kind) => SetTask(s, kind, Skipped)
    case ListForbidden(kind) => SetTask(s, kind, Skipped)
    case ListFailed(kind) => SetTask(s, kind, Failed)
    case Listed(kind, listing) =>
      var orphans := CollectOrphans(s.ids, Retain(c, listing));
      SetTask(s, kind, if orphans.Some? then Draining(orphans.value) else Failed)
    case DeleteFirst(kind, answered) =>
      var q := s.tasks.value[kind].orphans;
      var s' := s.(server := Without(s.server, KeyOf(q[0])));
      SetTask(s', kind, if answered then Draining(q[1..]) else Failed)
    case DeleteFailed(kind) => SetTask(s, kind, Failed)
    case FinishTask(kind) => SetTask(s, kind, Done)
  }

  /** A finite prefix of a run, from any valid store, under any schedule. */
  ghost predicate IsRun(c: Cluster, states: seq<State>, steps: seq<Step>) {
    && |states| == |steps| + 1
    && Initial(states[0])
    && forall i :: 0 <= i < |steps| ==> Enabled(c, states[i], steps[i]) && states[i + 1] == Exec(c, states[i], steps[i])
  }

  /** `delete_orphaned_resources` returns success once every task ended without an error. */
  predicate Succeeded(s: State) {
    forall kind: Kind :: TaskOf(s, kind) == Some(Done) || TaskOf(s, kind) == Some(Skipped)
  }

  /** The run deleted orphans, was allowed to list every kind, and succeeded. */
  predicate SucceededEverywhere(c: Cluster, s: State) {
    DeletesOrphans(c.strategy) && s.server.forbidden == {} && Succeeded(s)
  }

  // ----- What every step keeps -----

  /** The objects of a task's kind that belong to the cluster are recorded or still queued. */
  ghost predicate TaskInv(c: Cluster, server: Server, ids: set<Uid>, kind: Kind, task: Task) {
    match task
    case NotStarted => false // has no entry
    case Skipped => !DeletesOrphans(c.strategy) || kind in server.forbidden
    case Failed => true
    case Draining(q) =>
      && DeletesOrphans(c.strategy) && kind !in server.forbidden
      && NoDuplicates(q)
      && (forall o :: o in q ==>
            KeyOf(o) in server.store && server.store[KeyOf(o)] == o && o.kind == kind && Orphan(c, ids, o))
      && (forall k :: k in server.store && k.kind == kind && Belongs(c, server.store[k]) ==>
            server.store[k].meta.uid.Some? && (server.store[k].meta.uid.value in ids || server.store[k] in q))
    case Done =>
      && DeletesOrphans(c.strategy) && kind !in server.forbidden
      && forall k :: k in server.store && k.kind == kind && Belongs(c, server.store[k]) ==>
           server.store[k].meta.uid.Some? && server.store[k].meta.uid.value in ids
  }

  ghost predicate TasksInv(c: Cluster, s: State) {
    s.tasks.Some? ==>
      forall kind :: kind in s.tasks.value ==> TaskInv(c, s.server, s.ids, kind, s.tasks.value[kind])
  }

  /** What was added is stored under its key with the recorded uid. */
  ghost predicate AddedInv(c: Cluster, s: State) {
    DeletesOrphans(c.strategy) ==>
      && (forall u :: u in s.ids <==> exists k :: k in s.added && s.added[k] == u)
      && s.added.Keys <= s.touched
      && forall k :: k in s.added ==> k in s.server.store && s.server.store[k].meta.uid == Some(s.added[k])
  }

  ghost predicate Inv(c: Cluster, s: State) {
    ValidServer(s.server) && AddedInv(c, s) && TasksInv(c, s)
  }

  lemma ApplyKeepsServerValid(server: Server, patch: Object, stored: Object)
    requires ValidServer(server) && ApplyContract(server, patch, stored)
    ensures ValidServer(Applied(server, stored))
  {
  }

  /** Recording an object that is stored under its key keeps the record consistent. */
  lemma RecordKeepsAdded(c: Cluster, s: State, k: Key, uid: Option<Uid>)
    requires AddedInv(c, s) && k in s.touched
    requires k in s.server.store && s.server.store[k].meta.uid == uid
    ensures AddedInv(c, Record(s, k, uid))
  {
    if uid.Some? && DeletesOrphans(c.strategy) {
      var s' := Record(s, k, uid);
      forall u | u in s'.ids
        ensures exists l :: l in s'.added && s'.added[l] == u
      {
        if u == uid.value {
          assert s'.added[k] == u;
        } else {
          var l :| l in s.added && s.added[l] == u;
          assert s'.added[l] == u;
        }
      }
    }
  }

  lemma AppliedKeepsInv(c: Cluster, s: State, step: Step)
    requires Inv(c, s) && Enabled(c, s, step) && step.AddApplied?
    ensures Inv(c, Exec(c, s, step))
  {
    var k := KeyOf(step.stored);
    var s' := s.(server := Applied(s.server, step.stored), touched := s.touched + {k});
    ApplyKeepsServerValid(s.server, Prepare(c, step.resource).value, step.stored);
    assert AddedInv(c, s');
    RecordKeepsAdded(c, s', k, step.stored.meta.uid);
  }

  /** Whoever belongs to the cluster appears in a listing of its kind. */
  lemma ListingCoversKind(c: Cluster, s: State, kind: Kind, listing: seq<Object>)
    requires DeletesOrphans(c.strategy) && kind !in s.server.forbidden && IsListing(c, s.server.store, kind, listing)
    requires CollectOrphans(s.ids, Retain(c, listing)).Some?
    ensures TaskInv(c, s.server, s.ids, kind, Draining(CollectOrphans(s.ids, Retain(c, listing)).value))
  {
    var deployed := Retain(c, listing);
    forall k | k in s.server.store && k.kind == kind && Belongs(c, s.server.store[k])
      ensures s.server.store[k] in deployed
    {
      assert s.server.store[k] in listing;
    }
  }

  /** The rest of a queue holds other objects than its first. */
  lemma TailHasOtherKeys(store: map<Key, Object>, q: seq<Object>)
    requires NoDuplicates(q) && q != []
    requires forall p :: p in q ==> KeyOf(p) in store && store[KeyOf(p)] == p
    ensures NoDuplicates(q[1..])
    ensures forall o :: o in q[1..] ==> o in q && KeyOf(o) != KeyOf(q[0])
    ensures forall o :: o in q ==> o == q[0] || o in q[1..]
  {
    forall o | o in q[1..]
      ensures o in q && KeyOf(o) != KeyOf(q[0])
    {
      var i :| 0 <= i < |q[1..]| && q[1..][i] == o;
      assert q[i + 1] == o;
    }
    assert q == [q[0]] + q[1..];
  }

  /** After its first orphan is removed, a task still covers every object of its kind. */
  lemma RemovalAdvancesTask(c: Cluster, server: Server, ids: set<Uid>, kind: Kind, q: seq<Object>)
    requires ValidServer(server) && q != [] && TaskInv(c, server, ids, kind, Draining(q))
    ensures TaskInv(c, Without(server, KeyOf(q[0])), ids, kind, Draining(q[1..]))
  {
    TailHasOtherKeys(server.store, q);
    assert q[0] in q;
  }

  /** What a delete removes is an orphan, so nothing that was added. */
  lemma FirstQueuedIsOrphan(c: Cluster, s: State, kind: Kind)
    requires Inv(c, s) && HasOrphansLeft(s, kind)
    ensures var o := s.tasks.value[kind].orphans[0];
            && KeyOf(o) in s.server.store && s.server.store[KeyOf(o)] == o
            && o.kind == kind && Orphan(c, s.ids, o) && KeyOf(o) !in s.added
  {
  }

  /** The store a delete leaves behind. */
  function Without(server: Server, k: Key): Server {
    server.(store := server.store - {k})
  }

  lemma RemovalKeepsAdded(c: Cluster, s: State, k: Key)
    requires AddedInv(c, s) && k !in s.added
    ensures AddedInv(c, s.(server := Without(s.server, k)))
  {
  }

  lemma RemovalKeepsTasks(c: Cluster, s: State, kind: Kind, task: Task, k: Key)
    requires TasksInv(c, s) && s.tasks.Some? && k.kind == kind
    requires TaskInv(c, Without(s.server, k), s.ids, kind, task)
    ensures TasksInv(c, SetTask(s.(server := Without(s.server, k)), kind, task))
  {
  }

  /** A delete removes one object, an orphan; the other tasks do not notice. */
  lemma DeleteFirstKeepsInv(c: Cluster, s: State, step: Step)
    requires Inv(c, s) && Enabled(c, s, step) && step.DeleteFirst?
    ensures Inv(c, Exec(c, s, step))
  {
    var q := s.tasks.value[step.kind].orphans;
    FirstQueuedIsOrphan(c, s, step.kind);
    RemovalKeepsAdded(c, s, KeyOf(q[0]));
    RemovalAdvancesTask(c, s.server, s.ids, step.kind, q);
    RemovalKeepsTasks(c, s, step.kind, if step.answered then Draining(q[1..]) else Failed, KeyOf(q[0]));
  }

  lemma TaskStepKeepsInv(c: Cluster, s: State, kind: Kind, task: Task)
    requires Inv(c, s) && s.tasks.Some?
    requires TaskInv(c, s.server, s.ids, kind, task)
    ensures Inv(c, SetTask(s, kind, task))
  {
  }

  lemma OtherStepsKeepInv(c: Cluster, s: State, step: Step)
    requires Inv(c, s) && Enabled(c, s, step)
    requires !step.AddApplied? && !step.DeleteFirst?
    ensures Inv(c, Exec(c, s, step))
    ensures Exec(c, s, step).server == s.server
  {
    if s.tasks.Some? {
      var s' := Exec(c, s, step);
      if step.kind in s.tasks.value {
        assert TaskInv(c, s.server, s.ids, step.kind, s.tasks.value[step.kind]);
      }
      if step.Listed? && CollectOrphans(s.ids, Retain(c, step.listing)).Some? {
        ListingCoversKind(c, s, step.kind, step.listing);
      }
      TaskStepKeepsInv(c, s, step.kind, s'.tasks.value[step.kind]);
    }
  }

  lemma StepKeepsInv(c: Cluster, s: State, step: Step)
    requires Inv(c, s) && Enabled(c, s, step)
    ensures Inv(c, Exec(c, s, step))
  {
    if step.AddApplied? {
      AppliedKeepsInv(c, s, step);
    } else if step.DeleteFirst? {
      DeleteFirstKeepsInv(c, s, step);
    } else {
      OtherStepsKeepInv(c, s, step);
    }
  }

  lemma {:induction false} RunKeepsInv(c: Cluster, states: seq<State>, steps: seq<Step>, i: nat)
    requires IsRun(c, states, steps) && i < |states|
    ensures Inv(c, states[i])
  {
    if i > 0 {
      RunKeepsInv(c, states, steps, i - 1);
      StepKeepsInv(c, states[i - 1], steps[i - 1]);
    }
  }

  // ----- Safety of deletion -----

  /** Recorded uids are never forgotten, and none is recorded once the deletion has started. */
  ghost predicate Follows(s: State, t: State) {
    && s.ids <= t.ids && s.added.Keys <= t.added.Keys && s.touched <= t.touched
    && (s.tasks.Some? ==> t.tasks.Some? && t.ids == s.ids && t.added == s.added && t.touched == s.touched)
  }

  /** The steps of the caller record at most one uid. */
  lemma AddStepFollows(c: Cluster, s: State, step: Step)
    requires Enabled(c, s, step) && s.tasks.None?
    ensures Follows(s, Exec(c, s, step))
  {
  }

  /** The steps of the deletion tasks record nothing. */
  lemma TaskStepFollows(c: Cluster, s: State, step: Step)
    requires Enabled(c, s, step) && s.tasks.Some?
    ensures Follows(s, Exec(c, s, step))
  {
  }

  lemma StepFollows(c: Cluster, s: State, step: Step)
    requires Enabled(c, s, step)
    ensures Follows(s, Exec(c, s, step))
  {
    if s.tasks.None? {
      AddStepFollows(c, s, step);
    } else {
      TaskStepFollows(c, s, step);
    }
  }

  lemma RunStepFollows(c: Cluster, states: seq<State>, steps: seq<Step>, i: nat)
    requires IsRun(c, states, steps) && i < |steps|
    ensures Follows(states[i], states[i + 1])
  {
    StepFollows(c, states[i], steps[i]);
  }

  lemma {:induction false} FollowsAlong(states: seq<State>, i: nat, j: nat)
    requires i <= j < |states| && forall n :: i <= n < j ==> Follows(states[n], states[n + 1])
    ensures Follows(states[i], states[j])
  {
    if i < j {
      FollowsAlong(states, i, j - 1);
      assert Follows(states[j - 1], states[j - 1 + 1]);
    }
  }

  lemma IdsOnlyGrowBeforeDeletion(c: Cluster, states: seq<State>, steps: seq<Step>, i: nat, j: nat)
    requires IsRun(c, states, steps) && i <= j < |states|
    ensures Follows(states[i], states[j])
  {
    forall n | i <= n < j
      ensures Follows(states[n], states[n + 1])
    {
      RunStepFollows(c, states, steps, n);
    }
    FollowsAlong(states, i, j);
  }

  /** Only a delete of a queued orphan removes an object. */
  lemma StepDeletesOnlyOrphans(c: Cluster, s: State, step: Step, k: Key)
    requires Inv(c, s) && Enabled(c, s, step)
    requires k in s.server.store && k !in Exec(c, s, step).server.store
    ensures s.tasks.Some? && DeletesOrphans(c.strategy)
    ensures Orphan(c, s.ids, s.server.store[k]) && k !in s.added && k == KeyOf(s.server.store[k])
    ensures k.kind !in s.server.forbidden
    ensures Exec(c, s, step).server == Without(s.server, k)
  {
  }

  /**
   * Whatever disappears from the store in any run, under any schedule and with any failures, is in
   * the namespace of the cluster, carries its labels, is owned by it and is not added at any time
   * of the run.
   */
  lemma DeletionIsSafe(c: Cluster, states: seq<State>, steps: seq<Step>, i: nat, k: Key, j: nat)
    requires IsRun(c, states, steps) && i < |steps| && j < |states|
    requires k in states[i].server.store && k !in states[i + 1].server.store
    ensures c.strategy == Default || c.strategy == ClusterStopped
    ensures k.namespace == c.namespace
    ensures var o := states[i].server.store[k];
            && OfCluster(c, o)
            && o.meta.uid.Some? && o.meta.uid.value !in states[j].ids
            && k !in states[j].added
    ensures states[i + 1].server == Without(states[i].server, k)
  {
    assert Enabled(c, states[i], steps[i]) && states[i + 1] == Exec(c, states[i], steps[i]);
    RunKeepsInv(c, states, steps, i);
    StepDeletesOnlyOrphans(c, states[i], steps[i], k);
    BelongingIsOfCluster(c, states[i].server.store[k]);
    if j <= i {
      IdsOnlyGrowBeforeDeletion(c, states, steps, j, i);
    } else {
      IdsOnlyGrowBeforeDeletion(c, states, steps, i, j);
    }
  }

  /** A paused or dry run never changes the store. */
  lemma {:induction false} ReadOnlyStrategies(c: Cluster, states: seq<State>, steps: seq<Step>, i: nat)
    requires IsRun(c, states, steps) && i < |states|
    requires c.strategy == ReconciliationPaused || c.strategy == NoApply
    ensures states[i].server == states[0].server
  {
    if i > 0 {
      ReadOnlyStrategies(c, states, steps, i - 1);
      RunKeepsInv(c, states, steps, i - 1);
      var s, step := states[i - 1], steps[i - 1];
      assert Enabled(c, s, step);
      assert s.tasks.Some? ==> forall kind :: kind in s.tasks.value ==> TaskInv(c, s.server, s.ids, kind, s.tasks.value[kind]);
    }
  }

  // ----- Completeness of deletion -----

  /** What belongs to the cluster and has a recorded uid was added under its key. */
  lemma RecordedIsAdded(c: Cluster, s: State, k: Key)
    requires Inv(c, s) && DeletesOrphans(c.strategy)
    requires k in s.server.store && s.server.store[k].meta.uid.Some? && s.server.store[k].meta.uid.value in s.ids
    ensures k in s.added
  {
    var l :| l in s.added && s.added[l] == s.server.store[k].meta.uid.value;
    assert l in s.server.store && s.server.store[l].meta.uid == s.server.store[k].meta.uid;
  }

  /**
   * Once the task of a kind is done, the objects of that kind which belong to the cluster are
   * exactly those added in this run; and no added object is ever deleted.
   */
  lemma DoneTaskLeavesOnlyAdded(c: Cluster, states: seq<State>, steps: seq<Step>, i: nat, kind: Kind)
    requires IsRun(c, states, steps) && i < |states| && TaskOf(states[i], kind) == Some(Done)
    ensures forall k :: k in states[i].added ==>
              k in states[i].server.store && states[i].server.store[k].meta.uid == Some(states[i].added[k])
    ensures forall k :: k in states[i].server.store && k.kind == kind && Belongs(c, states[i].server.store[k]) ==>
              k in states[i].added
  {
    var s := states[i];
    RunKeepsInv(c, states, steps, i);
    assert TaskInv(c, s.server, s.ids, kind, Done);
    forall k | k in s.server.store && k.kind == kind && Belongs(c, s.server.store[k])
      ensures k in s.added
    {
      RecordedIsAdded(c, s, k);
    }
  }

  /** The keys of all stored objects that belong to the cluster. */
  ghost function BelongingKeys(c: Cluster, server: Server): set<Key> {
    set k | k in server.store && Belongs(c, server.store[k])
  }

  /**
   * After a successful run that applies, every stored object of the cluster whose kind may be listed
   * was added in it, and every added object is stored under the recorded uid.
   */
  lemma SuccessfulRunLeavesOnlyAdded(c: Cluster, states: seq<State>, steps: seq<Step>)
    requires IsRun(c, states, steps) && Succeeded(states[|steps|])
    requires c.strategy == Default || c.strategy == ClusterStopped
    ensures var s := states[|steps|];
            && (forall k :: k in s.server.store && k.kind !in s.server.forbidden && OfCluster(c, s.server.store[k]) ==>
                  k in s.added)
            && (forall k :: k in s.added ==>
                  && k in s.server.store && s.added[k] in s.ids
                  && s.server.store[k].meta.uid == Some(s.added[k]))
  {
    var s := states[|steps|];
    RunKeepsInv(c, states, steps, |steps|);
    SuccessLeavesNoOrphans(c, s);
    forall k | k in s.server.store && k.kind !in s.server.forbidden && OfCluster(c, s.server.store[k])
      ensures k in s.added
    {
      BelongingIsOfCluster(c, s.server.store[k]);
      assert k !in OrphanKeys(c, s);
    }
  }

  /** If every kind may be listed, all objects that belong to the cluster were added. */
  lemma SuccessCoversBelonging(c: Cluster, states: seq<State>, steps: seq<Step>)
    requires IsRun(c, states, steps) && SucceededEverywhere(c, states[|steps|])
    ensures BelongingKeys(c, states[|steps|].server) <= states[|steps|].added.Keys
  {
    SuccessfulRunLeavesOnlyAdded(c, states, steps);
    forall k | k in BelongingKeys(c, states[|steps|].server)
      ensures k in states[|steps|].added
    {
      BelongingIsOfCluster(c, states[|steps|].server.store[k]);
    }
  }

  // ----- The outcome of a deletion -----

  /** What the deletion has to remove: the cluster's own objects, of listable kinds, that were not added. */
  ghost function OrphanKeys(c: Cluster, s: State): set<Key> {
    set k | k in s.server.store && DeletesOrphans(c.strategy) && k.kind !in s.server.forbidden
            && Belongs(c, s.server.store[k]) && k !in s.added
  }

  /** The same written out. */
  ghost predicate IsLeftover(c: Cluster, s: State, k: Key)
    requires k in s.server.store
  {
    && (c.strategy == Default || c.strategy == ClusterStopped)
    && k.kind !in s.server.forbidden && OfCluster(c, s.server.store[k]) && k !in s.added
  }

  lemma OrphansAreLeftovers(c: Cluster, s: State)
    ensures forall k :: k in s.server.store ==> (k in OrphanKeys(c, s) <==> IsLeftover(c, s, k))
  {
    forall k | k in s.server.store
      ensures k in OrphanKeys(c, s) <==> IsLeftover(c, s, k)
    {
      BelongingIsOfCluster(c, s.server.store[k]);
    }
  }

  /** Compared with state `s`, exactly the leftovers are gone and nothing else has changed. */
  ghost predicate ExactlyLeftoversGone(c: Cluster, s: State, server: Server) {
    && server == s.server.(store := server.store)
    && (forall k :: k in server.store <==> k in s.server.store && !IsLeftover(c, s, k))
    && (forall k :: k in server.store ==> server.store[k] == s.server.store[k])
  }

  /** Compared with state `s`, nothing but orphans is gone and nothing else has changed. */
  ghost predicate OnlyOrphansGone(c: Cluster, s: State, server: Server) {
    && server == s.server.(store := server.store)
    && server.store.Keys <= s.server.store.Keys
    && s.server.store.Keys - server.store.Keys <= OrphanKeys(c, s)
    && forall k :: k in server.store ==> server.store[k] == s.server.store[k]
  }

  /** A step of a deletion task changes nothing on the server or removes one object. */
  lemma TaskStepOnServer(c: Cluster, s: State, step: Step)
    requires Enabled(c, s, step) && s.tasks.Some?
    ensures Exec(c, s, step).server == s.server ||
            exists k :: k in s.server.store && Exec(c, s, step).server == Without(s.server, k)
  {
  }

  lemma RemovalOfOrphan(c: Cluster, base: State, server: Server, k: Key)
    requires OnlyOrphansGone(c, base, server) && k in server.store && k in OrphanKeys(c, base)
    ensures OnlyOrphansGone(c, base, Without(server, k))
  {
  }

  lemma StepRemovesOnlyOrphans(c: Cluster, base: State, s: State, step: Step)
    requires Inv(c, s) && Enabled(c, s, step) && s.tasks.Some? && s.added == base.added
    requires OnlyOrphansGone(c, base, s.server)
    ensures OnlyOrphansGone(c, base, Exec(c, s, step).server)
  {
    var t := Exec(c, s, step);
    TaskStepOnServer(c, s, step);
    if t.server != s.server {
      var k :| k in s.server.store && t.server == Without(s.server, k);
      StepDeletesOnlyOrphans(c, s, step, k);
      RemovalOfOrphan(c, base, s.server, k);
    }
  }

  /** However far a deletion has come and whatever has failed, nothing but orphans is gone. */
  lemma {:induction false} DeletionRemovesOnlyOrphans(c: Cluster, states: seq<State>, steps: seq<Step>, i: nat, j: nat)
    requires IsRun(c, states, steps) && i <= j < |states| && states[i].tasks.Some?
    ensures OnlyOrphansGone(c, states[i], states[j].server)
    decreases j
  {
    if i < j {
      DeletionRemovesOnlyOrphans(c, states, steps, i, j - 1);
      RunKeepsInv(c, states, steps, j - 1);
      IdsOnlyGrowBeforeDeletion(c, states, steps, i, j - 1);
      StepRemovesOnlyOrphans(c, states[i], states[j - 1], steps[j - 1]);
    }
  }

  /** No orphan outlives a successful deletion. */
  lemma SuccessLeavesNoOrphans(c: Cluster, s: State)
    requires Inv(c, s) && Succeeded(s)
    ensures OrphanKeys(c, s) == {}
  {
    if k :| k in OrphanKeys(c, s) {
      assert TaskOf(s, k.kind) == Some(Done) || TaskOf(s, k.kind) == Some(Skipped);
      assert TaskInv(c, s.server, s.ids, k.kind, s.tasks.value[k.kind]);
      RecordedIsAdded(c, s, k);
      assert false;
    }
  }

  /** If nothing but orphans is gone and none is left, exactly the orphans are gone. */
  lemma OutcomeIsExact(c: Cluster, s: State, t: State)
    requires Inv(c, t) && Succeeded(t) && t.added == s.added && OnlyOrphansGone(c, s, t.server)
    ensures t.server == s.server.(store := s.server.store - OrphanKeys(c, s))
    ensures ExactlyLeftoversGone(c, s, t.server)
  {
    OrphansAreLeftovers(c, s);
    SuccessLeavesNoOrphans(c, t);
    assert forall k :: k in OrphanKeys(c, s) && k in t.server.store ==> k in OrphanKeys(c, t);
    assert t.server.store == s.server.store - OrphanKeys(c, s);
  }

  /**
   * The exact outcome, for every strategy and schedule: a deletion that succeeds leaves the store it
   * found minus the orphans, and everything else untouched.
   */
  lemma SuccessfulDeletionRemovesExactlyOrphans(c: Cluster, states: seq<State>, steps: seq<Step>, i: nat)
    requires IsRun(c, states, steps) && i < |steps| && steps[i] == StartDeletion && Succeeded(states[|steps|])
    ensures states[|steps|].server ==
            states[i].server.(store := states[i].server.store - OrphanKeys(c, states[i]))
    ensures ExactlyLeftoversGone(c, states[i], states[|steps|].server)
  {
    var s := states[i + 1];
    assert s == Exec(c, states[i], steps[i]);
    assert OrphanKeys(c, s) == OrphanKeys(c, states[i]);
    DeletionRemovesOnlyOrphans(c, states, steps, i + 1, |steps|);
    IdsOnlyGrowBeforeDeletion(c, states, steps, i + 1, |steps|);
    RunKeepsInv(c, states, steps, |steps|);
    OutcomeIsExact(c, s, states[|steps|]);
  }

  /** Every schedule of the deletion tasks that ends in success ends with the same store. */
  lemma ScheduleDoesNotMatter(c: Cluster, states: seq<State>, steps: seq<Step>, i: nat,
                              states': seq<State>, steps': seq<Step>, j: nat)
    requires IsRun(c, states, steps) && i < |steps| && steps[i] == StartDeletion && Succeeded(states[|steps|])
    requires IsRun(c, states', steps') && j < |steps'| && steps'[j] == StartDeletion && Succeeded(states'[|steps'|])
    requires states[i] == states'[j]
    ensures states[|steps|].server == states'[|steps'|].server
  {
    SuccessfulDeletionRemovesExactlyOrphans(c, states, steps, i);
    SuccessfulDeletionRemovesExactlyOrphans(c, states', steps', j);
  }

  /** A run that starts from the given server and deletes orphans at once has come to state `i`. */
  ghost predicate IsDeletion(c: Cluster, server: Server, states: seq<State>, steps: seq<Step>, i: nat) {
    IsRun(c, states, steps) && states[0].server == server && 0 < i < |states| && steps[0] == StartDeletion
  }

  /** An object that carries the labels of a cluster but is not owned by it outlives every deletion. */
  lemma LabelledUnownedSurvives() returns (c: Cluster, server: Server, k: Key)
    ensures ValidServer(server) && k in server.store && Selected(c, server.store[k]) && DeletesOrphans(c.strategy)
    ensures forall states: seq<State>, steps: seq<Step>, i: nat :: IsDeletion(c, server, states, steps, i) ==>
              k in states[i].server.store
  {
    c := Cluster("default", "simple", "app", 1, "operator", Default, []);
    var labels := map[
      K8S_APP_INSTANCE_KEY := c.appInstance, K8S_APP_MANAGED_BY_KEY := c.manager, K8S_APP_NAME_KEY := c.appName];
    var meta := Metadata(Some("foreign"), None, Some(c.namespace), labels, {}, Some(2));
    var o := Object(ConfigMap, meta, Spec(None, map[], map[]));
    k := KeyOf(o);
    server := Server(map[k := o], {2}, {});
    forall states: seq<State>, steps: seq<Step>, i: nat | IsDeletion(c, server, states, steps, i)
      ensures k in states[i].server.store
    {
      DeletionRemovesOnlyOrphans(c, states, steps, 1, i);
      assert k !in OrphanKeys(c, states[1]);
    }
  }

  /** Labels alone do not make an orphan: of the selected objects that were not added, the owned ones go. */
  lemma LabelledIsDeletedIffOwned(c: Cluster, states: seq<State>, steps: seq<Step>, i: nat, k: Key)
    requires IsRun(c, states, steps) && i < |steps| && steps[i] == StartDeletion
    requires SucceededEverywhere(c, states[|steps|])
    requires k in states[i].server.store && Selected(c, states[i].server.store[k]) && k !in states[i].added
    ensures k !in states[|steps|].server.store <==> c.clusterUid in states[i].server.store[k].meta.owners
  {
    SuccessfulDeletionRemovesExactlyOrphans(c, states, steps, i);
  }

  // ----- Convergence -----

  /** Two configurations of the same cluster: strategy and overrides may differ. */
  predicate SameCluster(c: Cluster, d: Cluster) {
    d.(strategy := c.strategy, overrides := c.overrides) == c
  }

  /** What a run keeps of the store it started from. */
  ghost predicate KeepsOf(base: Server, s: State) {
    && (s.tasks.None? ==> base.store.Keys <= s.server.store.Keys)
    && (forall k :: k in s.server.store && k !in s.touched ==> k in base.store && s.server.store[k] == base.store[k])
    && (forall k :: k in s.server.store && k in base.store ==> s.server.store[k].meta.uid == base.store[k].meta.uid)
  }

  lemma StepKeepsUids(c: Cluster, base: Server, s: State, step: Step)
    requires KeepsOf(base, s) && Enabled(c, s, step)
    ensures KeepsOf(base, Exec(c, s, step))
  {
  }

  lemma {:induction false} RunKeepsUids(c: Cluster, states: seq<State>, steps: seq<Step>, i: nat)
    requires IsRun(c, states, steps) && i < |states|
    ensures KeepsOf(states[0].server, states[i])
  {
    if i > 0 {
      RunKeepsUids(c, states, steps, i - 1);
      StepKeepsUids(c, states[0].server, states[i - 1], steps[i - 1]);
    }
  }

  /** An object added in two runs is recorded under the same uid in both. */
  lemma AddedAgainKeepsUids(c: Cluster, s: State, d: Cluster, t: State)
    requires DeletesOrphans(c.strategy) && DeletesOrphans(d.strategy) && AddedInv(c, s) && AddedInv(d, t)
    requires KeepsOf(s.server, t) && s.added.Keys <= t.added.Keys
    ensures forall k :: k in s.added ==> t.added[k] == s.added[k]
    ensures s.ids <= t.ids
    ensures s.added.Keys == t.added.Keys ==> s.ids == t.ids
  {
  }

  /** Only what was applied again can belong to the cluster, and it is recorded. */
  lemma AddedAgainLeavesNoOrphans(c: Cluster, s: State, d: Cluster, t: State)
    requires SameCluster(c, d) && DeletesOrphans(d.strategy) && AddedInv(d, t)
    requires KeepsOf(s.server, t) && BelongingKeys(c, s.server) <= s.added.Keys
    requires s.added.Keys <= t.added.Keys && t.touched <= t.added.Keys
    ensures forall k :: k in t.server.store ==> !Orphan(d, t.ids, t.server.store[k])
  {
  }

  /**
   * Once everything a first successful run added is added again, nothing in the store is an orphan,
   * and the recorded uids are those of the first run.
   */
  lemma SecondRunHasNoOrphans(c: Cluster, states: seq<State>, steps: seq<Step>,
                              d: Cluster, states': seq<State>, steps': seq<Step>, i: nat)
    requires IsRun(c, states, steps) && SucceededEverywhere(c, states[|steps|])
    requires SameCluster(c, d) && DeletesOrphans(d.strategy)
    requires IsRun(d, states', steps') && i < |states'| && states'[0].server == states[|steps|].server
    requires states[|steps|].added.Keys <= states'[i].added.Keys && states'[i].touched <= states'[i].added.Keys
    ensures forall k :: k in states[|steps|].added ==> states'[i].added[k] == states[|steps|].added[k]
    ensures states[|steps|].ids <= states'[i].ids
    ensures states'[i].added.Keys == states[|steps|].added.Keys ==> states'[i].ids == states[|steps|].ids
    ensures forall k :: k in states'[i].server.store ==> !Orphan(d, states'[i].ids, states'[i].server.store[k])
  {
    var s, t := states[|steps|], states'[i];
    RunKeepsInv(c, states, steps, |steps|);
    RunKeepsInv(d, states', steps', i);
    RunKeepsUids(d, states', steps', i);
    SuccessCoversBelonging(c, states, steps);
    AddedAgainKeepsUids(c, s, d, t);
    AddedAgainLeavesNoOrphans(c, s, d, t);
  }

  /**
   * Reconciling converges: a second run that adds the same objects again, and applies no others,
   * deletes nothing, whatever the schedule, the failures, the strategy and the overrides. If it is
   * not a paused or dry run it records the same uids.
   */
  lemma SecondRunDeletesNothing(c: Cluster, states: seq<State>, steps: seq<Step>,
                                d: Cluster, states': seq<State>, steps': seq<Step>, i: nat)
    requires IsRun(c, states, steps) && SucceededEverywhere(c, states[|steps|])
    requires SameCluster(c, d)
    requires IsRun(d, states', steps') && i < |steps'| && states'[0].server == states[|steps|].server
    requires states'[|steps'|].added.Keys == states[|steps|].added.Keys
    requires states'[|steps'|].touched <= states[|steps|].added.Keys
    ensures states'[i].server.store.Keys <= states'[i + 1].server.store.Keys
    ensures DeletesOrphans(d.strategy) ==> states'[|steps'|].ids == states[|steps|].ids
  {
    if DeletesOrphans(d.strategy) {
      SecondRunHasNoOrphans(c, states, steps, d, states', steps', |steps'|);
      if k :| k in states'[i].server.store && k !in states'[i + 1].server.store {
        NoOrphansNoDeletion(c, states, steps, d, states', steps', i, k);
      }
    } else {
      ReadOnlyStrategies(d, states', steps', i);
      ReadOnlyStrategies(d, states', steps', i + 1);
    }
  }

  lemma NoOrphansNoDeletion(c: Cluster, states: seq<State>, steps: seq<Step>,
                            d: Cluster, states': seq<State>, steps': seq<Step>, i: nat, k: Key)
    requires IsRun(c, states, steps) && SucceededEverywhere(c, states[|steps|])
    requires SameCluster(c, d) && DeletesOrphans(d.strategy)
    requires IsRun(d, states', steps') && i < |steps'| && states'[0].server == states[|steps|].server
    requires states'[|steps'|].added.Keys == states[|steps|].added.Keys
    requires states'[|steps'|].touched <= states[|steps|].added.Keys
    requires k in states'[i].server.store
    ensures k in states'[i + 1].server.store
  {
    if k !in states'[i + 1].server.store {
      assert states'[i + 1] == Exec(d, states'[i], steps'[i]);
      RunKeepsInv(d, states', steps', i);
      StepDeletesOnlyOrphans(d, states'[i], steps'[i], k);
      IdsOnlyGrowBeforeDeletion(d, states', steps', i, |steps'|);
      SecondRunHasNoOrphans(c, states, steps, d, states', steps', i);
      assert false;
    }
  }

  /** In such a second run the same objects are stored all the time, under the same uids. */
  lemma {:induction false} SecondRunKeepsObjects(c: Cluster, states: seq<State>, steps: seq<Step>,
                                                 d: Cluster, states': seq<State>, steps': seq<Step>, i: nat)
    requires IsRun(c, states, steps) && SucceededEverywhere(c, states[|steps|])
    requires SameCluster(c, d)
    requires IsRun(d, states', steps') && i < |states'| && states'[0].server == states[|steps|].server
    requires states'[|steps'|].added.Keys == states[|steps|].added.Keys
    requires states'[|steps'|].touched <= states[|steps|].added.Keys
    ensures states'[i].server.store.Keys == states'[0].server.store.Keys
    ensures forall k :: k in states'[i].server.store ==>
              states'[i].server.store[k].meta.uid == states'[0].server.store[k].meta.uid
    decreases i
  {
    if i > 0 {
      SecondRunKeepsObjects(c, states, steps, d, states', steps', i - 1);
      SecondRunDeletesNothing(c, states, steps, d, states', steps', i - 1);
      RunKeepsInv(c, states, steps, |steps|);
      RunKeepsUids(d, states', steps', i);
      IdsOnlyGrowBeforeDeletion(d, states', steps', i, |steps'|);
    }
  }

  // ----- Stopped clusters -----

  /** The overrides that can ever match the object under a key. */
  predicate Addresses(m: DynamicObject, k: Key) {
    && m.types == Some(TypeOf(k.kind))
    && m.meta.name == Some(k.name)
    && m.meta.namespace.GetOr("") == k.namespace
  }

  predicate SetsReplicas(m: DynamicObject) {
    m.spec.Some? && m.spec.value.replicas.Some?
  }

  predicate SetsStopSelector(m: DynamicObject) {
    m.spec.Some? && DO_NOT_SCHEDULE_KEY in m.spec.value.nodeSelector
  }

  /** Zero replicas or the unreachable node selector, unless an override sets that very field. */
  ghost predicate IsStopped(c: Cluster, k: Key, o: Object) {
    && (k.kind in {StatefulSet, Deployment} && (forall m :: m in c.overrides && Addresses(m, k) ==> !SetsReplicas(m)) ==>
          o.spec.replicas == Some(0))
    && (k.kind == DaemonSet && (forall m :: m in c.overrides && Addresses(m, k) ==> !SetsStopSelector(m)) ==>
          Selector(o, DO_NOT_SCHEDULE_KEY) == Some(DO_NOT_SCHEDULE_VALUE))
  }

  /** What a stopped run sends is decided by the last matching override that sets the field. */
  lemma PrepareStopped(c: Cluster, resource: Object)
    requires c.strategy == ClusterStopped && Prepare(c, resource).Ok?
    ensures var o := Prepare(c, resource).value;
            var matching := Matching(MaybeMutate(resource, c.strategy), c.overrides);
            && KeyOf(o) == KeyOf(resource) && o.kind == resource.kind
            && (o.kind in {StatefulSet, Deployment} ==> o.spec.replicas == LastReplicas(matching, Some(0)))
            && (o.kind == DaemonSet ==>
                  Selector(o, DO_NOT_SCHEDULE_KEY) == LastSelector(matching, DO_NOT_SCHEDULE_KEY, Some(DO_NOT_SCHEDULE_VALUE)))
  {
    var mutated := MaybeMutate(resource, c.strategy);
    ApplyToFoldsTheMatchingOverrides(mutated, c.overrides);
    MergeEachFields(mutated, Matching(mutated, c.overrides), DO_NOT_SCHEDULE_KEY);
  }

  lemma {:induction false} UnsetFieldsKeepDefaults(merges: seq<DynamicObject>, replicas: Option<int>, selector: Option<string>)
    ensures (forall m :: m in merges ==> !SetsReplicas(m)) ==> LastReplicas(merges, replicas) == replicas
    ensures (forall m :: m in merges ==> !SetsStopSelector(m)) ==>
              LastSelector(merges, DO_NOT_SCHEDULE_KEY, selector) == selector
  {
    if merges != [] {
      var init, last := merges[..|merges| - 1], merges[|merges| - 1];
      assert last in merges && forall m :: m in init ==> m in merges;
      UnsetFieldsKeepDefaults(init, replicas, selector);
    }
  }

  lemma AppliedIsStopped(c: Cluster, s: State, step: Step)
    requires Enabled(c, s, step) && step.AddApplied? && c.strategy == ClusterStopped
    ensures IsStopped(c, KeyOf(step.stored), step.stored)
  {
    var mutated := MaybeMutate(step.resource, c.strategy);
    var matching := Matching(mutated, c.overrides);
    var k := KeyOf(step.stored);
    PrepareStopped(c, step.resource);
    UnsetFieldsKeepDefaults(matching, Some(0), Some(DO_NOT_SCHEDULE_VALUE));
    assert KeyOf(mutated) == k;
    assert forall m :: m in matching ==> m in c.overrides && Addresses(m, k);
  }

  /** In a stopped run, whatever was applied and is still stored asks for no pods. */
  lemma {:induction false} StoppedRunStopsEverything(c: Cluster, states: seq<State>, steps: seq<Step>, i: nat, k: Key)
    requires IsRun(c, states, steps) && i < |states| && c.strategy == ClusterStopped
    requires k in states[i].touched && k in states[i].server.store
    ensures IsStopped(c, k, states[i].server.store[k])
  {
    if i > 0 {
      var s, step := states[i - 1], steps[i - 1];
      assert Enabled(c, s, step);
      assert states[i - 1 + 1] == Exec(c, s, step);
      if step.AddApplied? && KeyOf(step.stored) == k {
        AppliedIsStopped(c, s, step);
      } else {
        StoppedRunStopsEverything(c, states, steps, i - 1, k);
      }
    }
  }
}

/** The mutating operations of a reconcile run; each is a path of the transition system. */
module Reconciler {
  import opened Wrappers
  import opened Kubernetes
  import opened ObjectOverrides
  import opened ClusterResources

  /** `steps` lead from one state to another. */
  ghost predicate Reaches(c: Cluster, s: State, steps: seq<Step>, t: State)
    decreases |steps|
  {
    if steps == [] then s == t
    else Enabled(c, s, steps[0]) && Reaches(c, Exec(c, s, steps[0]), steps[1..], t)
  }

  lemma {:induction false} ReachesAppend(c: Cluster, s: State, steps: seq<Step>, t: State, step: Step)
    requires Reaches(c, s, steps, t) && Enabled(c, t, step)
    ensures Reaches(c, s, steps + [step], Exec(c, t, step))
    decreases |steps|
  {
    if steps == [] {
      assert ([step])[1..] == [];
    } else {
      assert (steps + [step])[1..] == steps[1..] + [step];
      ReachesAppend(c, Exec(c, s, steps[0]), steps[1..], t, step);
    }
  }

  /** What a path reaches from a good state is good. */
  lemma {:induction false} ReachesKeepsInv(c: Cluster, s: State, steps: seq<Step>, t: State)
    requires Inv(c, s) && Reaches(c, s, steps, t)
    ensures Inv(c, t)
    decreases |steps|
  {
    if steps != [] {
      StepKeepsInv(c, s, steps[0]);
      ReachesKeepsInv(c, Exec(c, s, steps[0]), steps[1..], t);
    }
  }

  lemma {:induction false} ReachesConcat(c: Cluster, s: State, steps: seq<Step>, t: State, steps': seq<Step>, u: State)
    requires Reaches(c, s, steps, t) && Reaches(c, t, steps', u)
    ensures Reaches(c, s, steps + steps', u)
    decreases |steps|
  {
    if steps == [] {
      assert steps + steps' == steps';
    } else {
      assert (steps + steps')[1..] == steps[1..] + steps';
      ReachesConcat(c, Exec(c, s, steps[0]), steps[1..], t, steps', u);
    }
  }

  /** The states on a path. */
  lemma {:induction false} StatesOfPath(c: Cluster, s: State, steps: seq<Step>, t: State) returns (states: seq<State>)
    requires Reaches(c, s, steps, t)
    ensures |states| == |steps| + 1 && states[0] == s && states[|steps|] == t
    ensures forall i :: 0 <= i < |steps| ==> Enabled(c, states[i], steps[i]) && states[i + 1] == Exec(c, states[i], steps[i])
    decreases |steps|
  {
    if steps == [] {
      states := [s];
    } else {
      var rest := StatesOfPath(c, Exec(c, s, steps[0]), steps[1..], t);
      states := [s] + rest;
      forall i | 0 <= i < |steps|
        ensures Enabled(c, states[i], steps[i]) && states[i + 1] == Exec(c, states[i], steps[i])
      {
        if i > 0 {
          assert Enabled(c, rest[i - 1], steps[1..][i - 1]);
        }
      }
    }
  }

  /** A path from an initial state is a run, so the theorems about runs hold for it. */
  lemma PathIsRun(c: Cluster, s: State, steps: seq<Step>, t: State) returns (states: seq<State>)
    requires Initial(s) && Reaches(c, s, steps, t)
    ensures IsRun(c, states, steps) && states[0] == s && states[|steps|] == t
  {
    states := StatesOfPath(c, s, steps, t);
  }

  // ----- Deletions on the way -----

  /** The steps are a path from the start of a deletion. */
  ghost predicate Deleting(c: Cluster, start: State, steps: seq<Step>, s: State) {
    && Inv(c, start) && start.tasks.None? && s.tasks.Some?
    && steps != [] && steps[0] == StartDeletion && Reaches(c, start, steps, s)
  }

  lemma DeletingStarts(c: Cluster, s: State)
    requires Inv(c, s) && s.tasks.None?
    ensures Enabled(c, s, StartDeletion) && Deleting(c, s, [StartDeletion], Exec(c, s, StartDeletion))
  {
    assert [StartDeletion][1..] == [];
  }

  lemma DeletingContinues(c: Cluster, start: State, steps: seq<Step>, s: State, step: Step)
    requires Deleting(c, start, steps, s) && Enabled(c, s, step)
    ensures Deleting(c, start, steps + [step], Exec(c, s, step))
  {
    ReachesAppend(c, start, steps, s, step);
    StepFollows(c, s, step);
  }

  lemma {:induction false} PathRemovesOnlyOrphans(c: Cluster, start: State, s: State, steps: seq<Step>, t: State)
    requires Reaches(c, s, steps, t)
    requires Inv(c, s) && s.tasks.Some? && s.added == start.added && OnlyOrphansGone(c, start, s.server)
    ensures Inv(c, t) && t.added == start.added && OnlyOrphansGone(c, start, t.server)
    decreases |steps|
  {
    if steps != [] {
      StepKeepsInv(c, s, steps[0]);
      StepFollows(c, s, steps[0]);
      StepRemovesOnlyOrphans(c, start, s, steps[0]);
      PathRemovesOnlyOrphans(c, start, Exec(c, s, steps[0]), steps[1..], t);
    }
  }

  /** On the way of a deletion the invariant holds, nothing is added and only orphans are removed. */
  lemma DeletionKeeps(c: Cluster, start: State, steps: seq<Step>, s: State)
    requires Deleting(c, start, steps, s)
    ensures Inv(c, s) && s.added == start.added && OnlyOrphansGone(c, start, s.server)
  {
    StepKeepsInv(c, start, StartDeletion);
    PathRemovesOnlyOrphans(c, start, Exec(c, start, StartDeletion), steps[1..], s);
  }

  lemma DrainingMayDelete(c: Cluster, start: State, steps: seq<Step>, s: State, kind: Kind)
    requires Deleting(c, start, steps, s) && TaskOf(s, kind).Some? && TaskOf(s, kind).value.Draining?
    ensures DeletesOrphans(c.strategy) && kind !in s.server.forbidden
  {
    DeletionKeeps(c, start, steps, s);
  }

  lemma QueuedIsStored(c: Cluster, start: State, steps: seq<Step>, s: State, kind: Kind)
    requires Deleting(c, start, steps, s) && HasOrphansLeft(s, kind)
    ensures KeyOf(s.tasks.value[kind].orphans[0]) in s.server.store
  {
    DeletionKeeps(c, start, steps, s);
    FirstQueuedIsOrphan(c, s, kind);
  }

  lemma UnlistedIsStep(c: Cluster, s: State, kind: Kind)
    requires TaskOf(s, kind) == Some(NotStarted) && DeletesOrphans(c.strategy)
    ensures Enabled(c, s, ListFailed(kind)) && Exec(c, s, ListFailed(kind)) == SetTask(s, kind, Failed)
    ensures kind in s.server.forbidden ==>
              Enabled(c, s, ListForbidden(kind)) && Exec(c, s, ListForbidden(kind)) == SetTask(s, kind, Skipped)
  {
  }

  lemma FinishIsStep(c: Cluster, s: State, kind: Kind)
    requires TaskOf(s, kind) == Some(Draining([]))
    ensures Enabled(c, s, FinishTask(kind)) && Exec(c, s, FinishTask(kind)) == SetTask(s, kind, Done)
  {
  }

  /** The answer and the effect of a delete request decide which step it is. */
  lemma DeleteIsStep(c: Cluster, s: State, kind: Kind, server: Server, answered: bool, effect: bool) returns (step: Step)
    requires HasOrphansLeft(s, kind) && (answered ==> effect)
    requires var k := KeyOf(s.tasks.value[kind].orphans[0]);
             k in s.server.store && server == if effect then Without(s.server, k) else s.server
    ensures Enabled(c, s, step)
    ensures Exec(c, s, step) ==
            SetTask(s.(server := server), kind, if answered then Draining(s.tasks.value[kind].orphans[1..]) else Failed)
  {
    step := if effect then DeleteFirst(kind, answered) else DeleteFailed(kind);
  }

  datatype ListResult = Forbidden | Unreachable | Items(items: seq<Object>)

  lemma {:induction false} FreshUidExists(used: set<Uid>) returns (bound: Uid)
    ensures forall u :: u in used ==> u < bound
  {
    bound := 0;
    if used != {} {
      var u :| u in used;
      var rest := FreshUidExists(used - {u});
      bound := if rest <= u then u + 1 else rest;
      assert forall v :: v in used ==> v == u || v in used - {u};
    }
  }

  /**
   * The API server as a client sees it. Requests may fail, with or without an effect, unless the
   * connection is reliable.
   */
  class Client {
    const reliable: bool
    var server: Server

    method Get(key: Key) returns (r: Option<Object>)
      ensures r.Some? ==> key in server.store && r.value == server.store[key]
      ensures reliable && key in server.store ==> r.Some?
    {
      var answered: bool := *;
      r := if key in server.store && (reliable || answered) then Some(server.store[key]) else None;
    }

    method ApplyPatch(patch: Object) returns (r: Option<Object>, ghost effect: Option<Object>)
      modifies this
      ensures effect.None? ==> server == old(server) && r.None?
      ensures effect.Some? ==> ApplyContract(old(server), patch, effect.value)
      ensures effect.Some? ==> server == Applied(old(server), effect.value)
      ensures r.Some? ==> r == effect
      ensures reliable ==> r.Some?
    {
      r, effect := None, None;
      var arrives: bool, answered: bool := *, *;
      if reliable || arrives {
        var k := KeyOf(patch);
        var stored := patch;
        if k in server.store {
          stored := MergeFrom(server.store[k], patch);
          stored := stored.(meta := stored.meta.(
            name := Some(k.name), namespace := Some(k.namespace), uid := server.store[k].meta.uid));
        } else {
          ghost var bound := FreshUidExists(server.used);
          assert bound !in server.used;
          var uid: Uid :| uid !in server.used;
          stored := patch.(meta := patch.meta.(uid := Some(uid)));
        }
        stored := stored.(kind := patch.kind);
        server := Applied(server, stored);
        effect := Some(stored);
        if reliable || answered {
          r := Some(stored);
        }
      }
    }

    method List(c: Cluster, kind: Kind) returns (r: ListResult)
      requires ValidServer(server)
      ensures r.Forbidden? ==> kind in server.forbidden
      ensures reliable ==> !r.Unreachable?
      ensures r.Items? ==> kind !in server.forbidden && IsListing(c, server.store, kind, r.items)
    {
      if kind in server.forbidden {
        return Forbidden;
      }
      var answered: bool := *;
      if !reliable && !answered {
        return Unreachable;
      }
      var items: seq<Object> := [];
      var keys := server.store.Keys;
      while keys != {}
        invariant keys <= server.store.Keys
        invariant NoDuplicates(items)
        invariant forall o :: o in items ==>
                    && KeyOf(o) in server.store && KeyOf(o) !in keys && server.store[KeyOf(o)] == o
                    && o.kind == kind && Selected(c, o)
        invariant forall k :: k in server.store && k !in keys && k.kind == kind && Selected(c, server.store[k]) ==>
                    server.store[k] in items
        decreases keys
      {
        var k :| k in keys;
        keys := keys - {k};
        if k.kind == kind && Selected(c, server.store[k]) {
          items := items + [server.store[k]];
        }
      }
      return Items(items);
    }

    method Delete(key: Key) returns (answered: bool, ghost effect: bool)
      modifies this
      ensures effect ==> key in old(server.store) && server == Without(old(server), key)
      ensures !effect ==> server == old(server)
      ensures answered ==> effect
      ensures reliable && key in old(server.store) ==> answered
    {
      answered, effect := false, false;
      var arrives: bool, reply: bool := *, *;
      if key in server.store && (reliable || arrives) {
        server := Without(server, key);
        effect := true;
        answered := reliable || reply;
      }
    }
  }

  /** The server holds an object of the cluster without a uid. */
  ghost predicate SomeLacksUid(c: Cluster, server: Server, kind: Kind) {
    exists k :: k in server.store && k.kind == kind && Belongs(c, server.store[k]) && server.store[k].meta.uid.None?
  }

  lemma ListedLacksUid(c: Cluster, server: Server, kind: Kind, items: seq<Object>, ids: set<Uid>)
    requires IsListing(c, server.store, kind, items) && CollectOrphans(ids, Retain(c, items)).None?
    ensures SomeLacksUid(c, server, kind)
  {
  }

  /** The store of a deletion only shrinks, so an object without uid was there from the start. */
  lemma SomeLackedUid(c: Cluster, start: State, steps: seq<Step>, s: State, kind: Kind)
    requires Deleting(c, start, steps, s)
    ensures SomeLacksUid(c, s.server, kind) ==> SomeLacksUid(c, start.server, kind)
  {
    DeletionKeeps(c, start, steps, s);
  }

  /** How the task of a kind ends without an error. */
  function Ended(c: Cluster, forbidden: set<Kind>, kind: Kind): Task {
    if DeletesOrphans(c.strategy) && kind !in forbidden then Done else Skipped
  }

  /** The task of a kind after the part of it that returned `r`. */
  function TaskAfter(c: Cluster, forbidden: set<Kind>, kind: Kind, r: Result<Option<seq<Object>>, ClusterError>): Task {
    match r
    case Err(_) => Failed
    case Ok(None) => Ended(c, forbidden, kind)
    case Ok(Some(queue)) => Draining(queue)
  }

  /** The kinds whose tasks have not begun and the queues of the tasks under way. */
  datatype Schedule = Schedule(waiting: set<Kind>, queues: map<Kind, seq<Object>>)

  /**
   * The kinds still waiting and the queues of the tasks under way say how far each task is; the
   * other tasks have ended without an error.
   */
  ghost predicate Scheduled(c: Cluster, forbidden: set<Kind>, tasks: Option<map<Kind, Task>>, left: Schedule) {
    && tasks.Some? && left.waiting !! left.queues.Keys && left.waiting !! tasks.value.Keys
    && forall kind: Kind :: kind !in left.waiting ==>
         && kind in tasks.value
         && tasks.value[kind] == if kind in left.queues then Draining(left.queues[kind]) else Ended(c, forbidden, kind)
  }

  /** What is left to do after the next part of the task of a kind. */
  function Advanced(left: Schedule, kind: Kind, queue: Option<seq<Object>>): Schedule {
    Schedule(left.waiting - {kind}, if queue.Some? then left.queues[kind := queue.value] else left.queues - {kind})
  }

  lemma AdvancedIsScheduled(c: Cluster, forbidden: set<Kind>, tasks: Option<map<Kind, Task>>,
                            left: Schedule, kind: Kind, queue: Option<seq<Object>>)
    requires Scheduled(c, forbidden, tasks, left)
    ensures Scheduled(c, forbidden, Some(tasks.value[kind := TaskAfter(c, forbidden, kind, Ok(queue))]), Advanced(left, kind, queue))
  {
  }

  lemma NothingLeftMeansSuccess(c: Cluster, s: State, left: Schedule)
    requires Scheduled(c, s.server.forbidden, s.tasks, left) && left.waiting + left.queues.Keys == {}
    ensures Succeeded(s)
  {
  }

  /** A task leaves the waiting ones, or its queue ends. */
  lemma AdvancedIsSmaller(left: Schedule, kind: Kind, queue: Option<seq<Object>>)
    requires kind in left.waiting + left.queues.Keys && left.waiting !! left.queues.Keys
    ensures kind in left.waiting ==> |Advanced(left, kind, queue).waiting| < |left.waiting|
    ensures kind in left.queues ==> Advanced(left, kind, queue).waiting == left.waiting
    ensures kind in left.queues && queue.None? ==> |Advanced(left, kind, queue).queues| < |left.queues|
  {
    if kind in left.queues && queue.None? {
      assert (left.queues - {kind}).Keys == left.queues.Keys - {kind};
      assert |(left.queues - {kind}).Keys| == |left.queues.Keys| - 1;
    }
  }

  /** Why a valid resource cannot be added although every request is answered. */
  predicate Unaddable(c: Cluster, patch: Object, server: Server) {
    match c.strategy
    case ReconciliationPaused =>
      || patch.meta.namespace.None?
      || KeyOf(patch) !in server.store
      || server.store[KeyOf(patch)].meta.uid.None?
    case NoApply => patch.meta.uid.None?
    case _ => KeyOf(patch) in server.store && server.store[KeyOf(patch)].meta.uid.None?
  }

  /** The cluster resources of one run. The ghost fields are the history of the run. */
  class Resources {
    const cluster: Cluster
    var resourceIds: set<Uid>
    ghost var added: map<Key, Uid>
    ghost var touched: set<Key>
    ghost var tasks: Option<map<Kind, Task>>

    ghost function View(client: Client): State
      reads this, client
    {
      State(client.server, resourceIds, added, touched, tasks)
    }

    constructor (c: Cluster)
      ensures cluster == c && resourceIds == {} && added == map[] && touched == {} && tasks == None
    {
      cluster, resourceIds, added, touched, tasks := c, {}, map[], {}, None;
    }

    method InsertId(key: Key, uid: Option<Uid>) returns (r: Result<(), ClusterError>)
      modifies this
      ensures touched == old(touched) && tasks == old(tasks)
      ensures uid.None? ==> r == Err(MissingObjectKey("metadata/uid"))
      ensures uid.None? ==> resourceIds == old(resourceIds) && added == old(added)
      ensures uid.Some? ==> r == Ok(())
      ensures uid.Some? ==> resourceIds == old(resourceIds) + {uid.value} && added == old(added)[key := uid.value]
    {
      if uid.None? {
        return Err(MissingObjectKey("metadata/uid"));
      }
      resourceIds := resourceIds + {uid.value};
      added := added[key := uid.value];
      return Ok(());
    }

    /** Adds one resource: a single step of the run, and its uid is recorded on success only. */
    method Add(client: Client, resource: Object) returns (r: Result<Object, ClusterError>, ghost step: Step)
      requires tasks.None?
      modifies this, client
      ensures Enabled(cluster, old(View(client)), step)
      ensures View(client) == Exec(cluster, old(View(client)), step)
      ensures Prepare(cluster, resource).Err? ==> r == Err(Prepare(cluster, resource).error) && step == AddRejected
      ensures r.Ok? ==>
                Identified(cluster, resource) && forall m :: m in cluster.overrides && Matches(resource, m) ==> m.spec.Some?
      ensures r.Ok? ==> r.value.meta.uid.Some? && r.value.meta.uid.value in resourceIds
      ensures r.Ok? ==> added == old(added)[KeyOf(resource) := r.value.meta.uid.value]
      ensures r.Err? ==> resourceIds == old(resourceIds) && added == old(added)
      ensures tasks.None? && touched <= old(touched) + {KeyOf(resource)}
      ensures r.Ok? && (cluster.strategy == Default || cluster.strategy == ClusterStopped) ==>
                && step == AddApplied(resource, r.value, true)
                && KeyOf(resource) in client.server.store && client.server.store[KeyOf(resource)] == r.value
                && ApplyContract(old(client.server), MergeEach(MaybeMutate(resource, cluster.strategy),
                                                               Matching(resource, cluster.overrides)), r.value)
      ensures r.Ok? && cluster.strategy == ReconciliationPaused ==>
                && step == AddFetched(resource)
                && KeyOf(resource) in client.server.store && client.server.store[KeyOf(resource)] == r.value
      ensures r.Ok? && cluster.strategy == NoApply ==> step == AddUnapplied(resource) && Ok(r.value) == Prepare(cluster, resource)
      ensures client.reliable && Prepare(cluster, resource).Ok? && r.Err? ==>
                Unaddable(cluster, Prepare(cluster, resource).value, client.server)
    {
      step := AddRejected;
      var prepared := Prepare(cluster, resource);
      PrepareKeepsKey(cluster, resource);
      PrepareExactly(cluster, resource);
      if prepared.Err? {
        return Err(prepared.error), step;
      }
      var patch := prepared.value;
      match cluster.strategy {
        case ReconciliationPaused =>
          if patch.meta.namespace.None? {
            return Err(MissingObjectKey("namespace")), step;
          }
          var fetched := client.Get(KeyOf(patch));
          if fetched.None? {
            return Err(GetResource), step;
          }
          step := AddFetched(resource);
          var inserted := InsertId(KeyOf(patch), fetched.value.meta.uid);
          r := if inserted.Ok? then Ok(fetched.value) else Err(inserted.error);
        case NoApply =>
          step := AddUnapplied(resource);
          var inserted := InsertId(KeyOf(patch), patch.meta.uid);
          r := if inserted.Ok? then Ok(patch) else Err(inserted.error);
        case _ =>
          var patched;
          ghost var effect;
          patched, effect := client.ApplyPatch(patch);
          if effect.Some? {
            touched := touched + {KeyOf(effect.value)};
            step := AddApplied(resource, effect.value, patched.Some?);
          }
          if patched.None? {
            return Err(ApplyPatch), step;
          }
          var inserted := InsertId(KeyOf(patched.value), patched.value.meta.uid);
          r := if inserted.Ok? then Ok(patched.value) else Err(inserted.error);
      }
    }

    /** Extends a path by a step that only moves the task of one kind. */
    ghost method Take(client: Client, start: State, steps: seq<Step>, step: Step, kind: Kind, task: Task)
      returns (steps': seq<Step>)
      requires Deleting(cluster, start, steps, View(client))
      requires Enabled(cluster, View(client), step)
      requires Exec(cluster, View(client), step) == SetTask(View(client), kind, task)
      modifies this`tasks
      ensures tasks == Some(old(tasks).value[kind := task])
      ensures Deleting(cluster, start, steps', View(client))
    {
      DeletingContinues(cluster, start, steps, View(client), step);
      tasks := Some(tasks.value[kind := task]);
      steps' := steps + [step];
    }

    /** Ends a task whose queue is empty. */
    ghost method Finish(client: Client, kind: Kind, start: State, steps: seq<Step>) returns (steps': seq<Step>)
      requires Deleting(cluster, start, steps, View(client)) && TaskOf(View(client), kind) == Some(Draining([]))
      modifies this`tasks
      ensures tasks == Some(old(tasks).value[kind := Done]) && Deleting(cluster, start, steps', View(client))
    {
      FinishIsStep(cluster, View(client), kind);
      steps' := Take(client, start, steps, FinishTask(kind), kind, Done);
    }

    /** Lists the orphans of a kind; `None` if listing is forbidden. */
    method ListOrphaned(client: Client, kind: Kind, ghost start: State, ghost steps: seq<Step>)
      returns (r: Result<Option<seq<Object>>, ClusterError>, ghost steps': seq<Step>)
      requires Deleting(cluster, start, steps, View(client)) && TaskOf(View(client), kind) == Some(NotStarted)
      requires DeletesOrphans(cluster.strategy)
      modifies this`tasks
      ensures Deleting(cluster, start, steps', View(client))
      ensures tasks == Some(old(tasks).value[kind := TaskAfter(cluster, client.server.forbidden, kind, r)])
      ensures r.Ok? ==> (r.value.Some? <==> kind !in client.server.forbidden)
      ensures client.reliable && r.Err? ==> SomeLacksUid(cluster, client.server, kind)
    {
      DeletionKeeps(cluster, start, steps, View(client));
      var listed := client.List(cluster, kind);
      UnlistedIsStep(cluster, View(client), kind);
      match listed {
        case Forbidden =>
          steps' := Take(client, start, steps, ListForbidden(kind), kind, Skipped);
          return Ok(None), steps';
        case Unreachable =>
          steps' := Take(client, start, steps, ListFailed(kind), kind, Failed);
          return Err(ListClusterResources), steps';
        case Items(items) =>
          r, steps' := QueueOrphans(client, kind, items, start, steps);
      }
    }

    /** Keeps the owned objects of a listing and queues those that are not recorded. */
    method QueueOrphans(client: Client, kind: Kind, items: seq<Object>, ghost start: State, ghost steps: seq<Step>)
      returns (r: Result<Option<seq<Object>>, ClusterError>, ghost steps': seq<Step>)
      requires Deleting(cluster, start, steps, View(client)) && Enabled(cluster, View(client), Listed(kind, items))
      modifies this`tasks
      ensures Deleting(cluster, start, steps', View(client))
      ensures tasks == Some(old(tasks).value[kind := TaskAfter(cluster, client.server.forbidden, kind, r)])
      ensures r.Ok? ==> r.value.Some?
      ensures r.Err? ==> SomeLacksUid(cluster, client.server, kind)
    {
      var orphaned := CollectOrphans(resourceIds, Retain(cluster, items));
      steps' := Take(client, start, steps, Listed(kind, items), kind,
                     if orphaned.Some? then Draining(orphaned.value) else Failed);
      if orphaned.None? {
        ListedLacksUid(cluster, client.server, kind, items, resourceIds);
        return Err(MissingObjectKey("metadata/uid")), steps';
      }
      return Ok(orphaned), steps';
    }

    /** Deletes the first queued orphan. */
    method DeleteOne(client: Client, kind: Kind, queue: seq<Object>, ghost start: State, ghost steps: seq<Step>)
      returns (answered: bool, ghost steps': seq<Step>)
      requires Deleting(cluster, start, steps, View(client))
      requires queue != [] && TaskOf(View(client), kind) == Some(Draining(queue))
      modifies this`tasks, client
      ensures Deleting(cluster, start, steps', View(client))
      ensures tasks == Some(old(tasks).value[kind := if answered then Draining(queue[1..]) else Failed])
      ensures client.server.forbidden == old(client.server.forbidden)
      ensures answered ==> |client.server.store| < |old(client.server.store)|
      ensures client.reliable ==> answered
    {
      ghost var before := View(client);
      QueuedIsStored(cluster, start, steps, before, kind);
      ghost var effect;
      answered, effect := client.Delete(KeyOf(queue[0]));
      tasks := Some(tasks.value[kind := if answered then Draining(queue[1..]) else Failed]);
      ghost var step := DeleteIsStep(cluster, before, kind, client.server, answered, effect);
      DeletingContinues(cluster, start, steps, before, step);
      steps' := steps + [step];
    }

    /**
     * Carries the task of a kind to its next request: a task without a queue lists, another one
     * deletes its first orphan or ends. Returns the queue that is left, `None` at the end.
     */
    method Advance(client: Client, kind: Kind, queue: Option<seq<Object>>, ghost start: State, ghost steps: seq<Step>)
      returns (r: Result<Option<seq<Object>>, ClusterError>, ghost steps': seq<Step>)
      requires Deleting(cluster, start, steps, View(client))
      requires TaskOf(View(client), kind) == Some(if queue.None? then NotStarted else Draining(queue.value))
      modifies this`tasks, client
      ensures Deleting(cluster, start, steps', View(client)) && client.server.forbidden == old(client.server.forbidden)
      ensures tasks == Some(old(tasks).value[kind := TaskAfter(cluster, client.server.forbidden, kind, r)])
      ensures queue.None? || (r.Ok? && r.value.None?) ==> client.server == old(client.server)
      ensures queue.Some? && r.Ok? && r.value.Some? ==> |client.server.store| < |old(client.server.store)|
      ensures !DeletesOrphans(cluster.strategy) ==> r == Ok(None)
      ensures client.reliable && r.Err? ==> queue.None? && SomeLacksUid(cluster, client.server, kind)
    {
      if !DeletesOrphans(cluster.strategy) && queue.None? {
        steps' := Take(client, start, steps, SkipTask(kind), kind, Skipped);
        r := Ok(None);
      } else if queue.None? {
        r, steps' := ListOrphaned(client, kind, start, steps);
      } else {
        r, steps' := Drain(client, kind, queue.value, start, steps);
      }
    }

    /** Deletes the first orphan of a queue, or ends the task if there is none. */
    method Drain(client: Client, kind: Kind, queue: seq<Object>, ghost start: State, ghost steps: seq<Step>)
      returns (r: Result<Option<seq<Object>>, ClusterError>, ghost steps': seq<Step>)
      requires Deleting(cluster, start, steps, View(client)) && TaskOf(View(client), kind) == Some(Draining(queue))
      modifies this`tasks, client
      ensures Deleting(cluster, start, steps', View(client)) && client.server.forbidden == old(client.server.forbidden)
      ensures tasks == Some(old(tasks).value[kind := TaskAfter(cluster, client.server.forbidden, kind, r)])
      ensures r.Ok? && r.value.None? ==> client.server == old(client.server)
      ensures r.Ok? && r.value.Some? ==> |client.server.store| < |old(client.server.store)|
      ensures DeletesOrphans(cluster.strategy) && (client.reliable ==> r.Ok?)
    {
      DrainingMayDelete(cluster, start, steps, View(client), kind);
      if queue == [] {
        steps' := Finish(client, kind, start, steps);
        r := Ok(None);
      } else {
        var answered;
        answered, steps' := DeleteOne(client, kind, queue, start, steps);
        r := if answered then Ok(Some(queue[1..])) else Err(DeleteOrphanedResource);
      }
    }

    /**
     * Runs the deletion task of one kind alone to its end. An error at any point leaves a state that
     * satisfies the invariant; success means the task is done, or skipped because the kind may not
     * be listed or the strategy does not delete.
     */
    method DeleteOrphanedResourcesOfKind(client: Client, kind: Kind, ghost start: State, ghost steps: seq<Step>)
      returns (r: Result<(), ClusterError>, ghost steps': seq<Step>)
      requires Deleting(cluster, start, steps, View(client)) && TaskOf(View(client), kind) == Some(NotStarted)
      modifies this`tasks, client
      ensures Deleting(cluster, start, steps', View(client)) && client.server.forbidden == old(client.server.forbidden)
      ensures TaskOf(View(client), kind) == Some(if r.Ok? then Ended(cluster, client.server.forbidden, kind) else Failed)
      ensures !DeletesOrphans(cluster.strategy) ==> r.Ok? && client.server == old(client.server)
      ensures client.reliable && r.Err? ==> SomeLacksUid(cluster, old(client.server), kind)
    {
      var next;
      next, steps' := Advance(client, kind, None, start, steps);
      while next.Ok? && next.value.Some?
        invariant Deleting(cluster, start, steps', View(client)) && client.server.forbidden == old(client.server.forbidden)
        invariant TaskOf(View(client), kind) == Some(TaskAfter(cluster, client.server.forbidden, kind, next))
        invariant !DeletesOrphans(cluster.strategy) ==> next == Ok(None) && client.server == old(client.server)
        invariant client.reliable && next.Err? ==> SomeLacksUid(cluster, old(client.server), kind)
        decreases next.Ok?, |client.server.store|, next.Ok? && next.value.Some?
      {
        next, steps' := Advance(client, kind, next.value, start, steps');
      }
      r := if next.Ok? then Ok(()) else Err(next.error);
    }

    /** Starts the tasks of all kinds. */
    ghost method StartTasks(client: Client) returns (steps: seq<Step>)
      requires Inv(cluster, View(client)) && tasks.None?
      modifies this`tasks
      ensures steps == [StartDeletion] && Deleting(cluster, old(View(client)), steps, View(client))
      ensures Scheduled(cluster, client.server.forbidden, tasks, Schedule(ALL_KINDS, map[]))
    {
      DeletingStarts(cluster, View(client));
      tasks := Exec(cluster, View(client), StartDeletion).tasks;
      steps := [StartDeletion];
      forall kind: Kind ensures kind in ALL_KINDS { AllKindsAreListed(kind); }
    }

    /** Carries any one of the tasks to its next request. */
    method JoinOne(client: Client, left: Schedule, ghost start: State, ghost steps: seq<Step>)
      returns (r: Result<Schedule, ClusterError>, ghost steps': seq<Step>)
      requires Deleting(cluster, start, steps, View(client))
      requires Scheduled(cluster, client.server.forbidden, tasks, left)
      requires left.waiting + left.queues.Keys != {}
      modifies this`tasks, client
      ensures Deleting(cluster, start, steps', View(client))
      ensures r.Ok? ==> Scheduled(cluster, client.server.forbidden, tasks, r.value)
      ensures r.Ok? ==>
                || |r.value.waiting| < |left.waiting|
                || (r.value.waiting == left.waiting && |client.server.store| < |old(client.server.store)|)
                || (r.value.waiting == left.waiting && client.server == old(client.server) && |r.value.queues| < |left.queues|)
      ensures !DeletesOrphans(cluster.strategy) ==> r.Ok?
      ensures client.reliable && r.Err? ==> exists kind :: SomeLacksUid(cluster, start.server, kind)
    {
      var kind :| kind in left.waiting + left.queues.Keys;
      var queue := if kind in left.queues then Some(left.queues[kind]) else None;
      ghost var before := tasks;
      var next;
      next, steps' := Advance(client, kind, queue, start, steps);
      if next.Err? {
        SomeLackedUid(cluster, start, steps', View(client), kind);
        return Err(next.error), steps';
      }
      AdvancedIsScheduled(cluster, client.server.forbidden, before, left, kind, next.value);
      AdvancedIsSmaller(left, kind, next.value);
      return Ok(Advanced(left, kind, next.value)), steps';
    }

    /** Interleaves the tasks in any way until all have ended or one has failed. */
    method JoinTasks(client: Client, all: Schedule, ghost start: State, ghost steps: seq<Step>)
      returns (r: Result<(), ClusterError>, ghost steps': seq<Step>)
      requires Deleting(cluster, start, steps, View(client))
      requires Scheduled(cluster, client.server.forbidden, tasks, all)
      modifies this`tasks, client
      ensures Deleting(cluster, start, steps', View(client))
      ensures r.Ok? ==> Succeeded(View(client))
      ensures !DeletesOrphans(cluster.strategy) ==> r.Ok?
      ensures client.reliable && r.Err? ==> exists kind :: SomeLacksUid(cluster, start.server, kind)
    {
      steps' := steps;
      var left := all;
      while left.waiting + left.queues.Keys != {}
        invariant Deleting(cluster, start, steps', View(client))
        invariant Scheduled(cluster, client.server.forbidden, tasks, left)
        decreases |left.waiting|, |client.server.store|, |left.queues|
      {
        var next;
        next, steps' := JoinOne(client, left, start, steps');
        if next.Err? {
          return Err(next.error), steps';
        }
        left := next.value;
      }
      NothingLeftMeansSuccess(cluster, View(client), left);
      return Ok(()), steps';
    }

    /**
     * Deletes the orphans of all kinds. On success exactly the orphans are gone, whatever the
     * schedule; after an error at most they are.
     */
    method DeleteOrphanedResources(client: Client) returns (r: Result<(), ClusterError>, ghost steps: seq<Step>)
      requires Inv(cluster, View(client)) && tasks.None?
      modifies this`tasks, client
      ensures Deleting(cluster, old(View(client)), steps, View(client))
      ensures Inv(cluster, View(client)) && OnlyOrphansGone(cluster, old(View(client)), client.server)
      ensures r.Ok? ==> Succeeded(View(client))
      ensures r.Ok? ==> ExactlyLeftoversGone(cluster, old(View(client)), client.server)
      ensures r.Ok? && (cluster.strategy == Default || cluster.strategy == ClusterStopped) ==>
                forall k :: k in client.server.store && k.kind !in client.server.forbidden && OfCluster(cluster, client.server.store[k]) ==>
                  k in added
      ensures cluster.strategy == ReconciliationPaused || cluster.strategy == NoApply ==>
                r.Ok? && client.server == old(client.server)
      ensures client.reliable && r.Err? ==> exists kind :: SomeLacksUid(cluster, old(client.server), kind)
    {
      ghost var start := View(client);
      steps := StartTasks(client);
      r, steps := JoinTasks(client, Schedule(ALL_KINDS, map[]), start, steps);
      DeletionKeeps(cluster, start, steps, View(client));
      if r.Ok? {
        OutcomeIsExact(cluster, start, View(client));
      }
    }
  }

  // ----- A whole run -----

  function KeysOf(resources: seq<Object>): set<Key> {
    set o | o in resources :: KeyOf(o)
  }

  /**
   * Adds the resources in order and then deletes the orphans; stops at the first error. This is a
   * run of the transition system, so what holds of all runs holds here. On success, the objects
   * that belong to the cluster are among the given ones, and all given ones are stored.
   */
  method Reconcile(client: Client, c: Cluster, resources: seq<Object>)
    returns (r: Result<(), ClusterError>, ghost states: seq<State>, ghost steps: seq<Step>)
    requires ValidServer(client.server)
    modifies client
    ensures IsRun(c, states, steps)
    ensures states[0].server == old(client.server) && states[|steps|].server == client.server
    ensures states[|steps|].touched <= KeysOf(resources)
    ensures r.Ok? ==> Succeeded(states[|steps|]) && states[|steps|].added.Keys == KeysOf(resources)
    ensures r.Ok? && (c.strategy == Default || c.strategy == ClusterStopped) ==>
              && KeysOf(resources) <= client.server.store.Keys
              && forall k :: k in client.server.store && k.kind !in client.server.forbidden && OfCluster(c, client.server.store[k]) ==>
                   k in KeysOf(resources)
  {
    var run := new Resources(c);
    ghost var start := run.View(client);
    r, steps := AddAll(run, client, resources, start);
    if r.Ok? {
      ghost var deletion, adding := [], run.View(client);
      ReachesKeepsInv(c, start, steps, adding);
      r, deletion := run.DeleteOrphanedResources(client);
      ReachesConcat(c, start, steps, adding, deletion, run.View(client));
      steps := steps + deletion;
    }
    states := PathIsRun(c, start, steps, run.View(client));
    RunKeepsInv(c, states, steps, |steps|);
  }

  method AddNext(run: Resources, client: Client, resource: Object, ghost start: State, ghost steps: seq<Step>)
    returns (r: Result<(), ClusterError>, ghost steps': seq<Step>)
    requires run.tasks.None? && Reaches(run.cluster, start, steps, run.View(client))
    modifies run, client
    ensures run.tasks.None? && Reaches(run.cluster, start, steps', run.View(client))
    ensures run.touched <= old(run.touched) + {KeyOf(resource)}
    ensures run.added.Keys == old(run.added).Keys + if r.Ok? then {KeyOf(resource)} else {}
  {
    ghost var before := run.View(client);
    var added;
    ghost var step;
    added, step := run.Add(client, resource);
    ReachesAppend(run.cluster, start, steps, before, step);
    steps' := steps + [step];
    r := if added.Ok? then Ok(()) else Err(added.error);
  }

  method AddAll(run: Resources, client: Client, resources: seq<Object>, ghost start: State)
    returns (r: Result<(), ClusterError>, ghost steps: seq<Step>)
    requires start == run.View(client) && Initial(start)
    modifies run, client
    ensures run.tasks.None? && Reaches(run.cluster, start, steps, run.View(client))
    ensures run.touched <= KeysOf(resources)
    ensures r.Ok? ==> run.added.Keys == KeysOf(resources)
  {
    steps := [];
    for i := 0 to |resources|
      invariant run.tasks.None? && Reaches(run.cluster, start, steps, run.View(client))
      invariant run.touched <= KeysOf(resources) && run.added.Keys == KeysOf(resources[..i])
    {
      r, steps := AddNext(run, client, resources[i], start, steps);
      if r.Err? {
        return;
      }
      assert resources[..i + 1] == resources[..i] + [resources[i]];
    }
    assert resources[..|resources|] == resources;
    return Ok(()), steps;
  }

  /**
   * Reconciling the same resources again, whatever the strategy and the overrides, neither adds an
   * object to the server nor removes one.
   */
  method ReconcileAgain(client: Client, c: Cluster, d: Cluster, resources: seq<Object>)
    returns (r: Result<(), ClusterError>, ghost between: Server)
    requires ValidServer(client.server)
    requires DeletesOrphans(c.strategy) && SameCluster(c, d)
    modifies client
    ensures r.Ok? && between.forbidden == {} ==>
              && client.server.store.Keys == between.store.Keys
              && forall k :: k in between.store ==> client.server.store[k].meta.uid == between.store[k].meta.uid
  {
    ghost var states, steps, states', steps';
    r, states, steps := Reconcile(client, c, resources);
    between := client.server;
    RunKeepsInv(c, states, steps, |steps|);
    if r.Ok? {
      r, states', steps' := Reconcile(client, d, resources);
      if r.Ok? && between.forbidden == {} {
        SecondRunKeepsObjects(c, states, steps, d, states', steps', |steps'|);
      }
    }
  }

  // ----- No deletion is stuck -----

  /** Every kind can be listed: some order of the selected objects among `keys`. */
  lemma {:induction false} ListingExists(c: Cluster, server: Server, kind: Kind, keys: set<Key>) returns (items: seq<Object>)
    requires ValidServer(server) && keys <= server.store.Keys
    ensures NoDuplicates(items)
    ensures forall o :: o in items ==>
              KeyOf(o) in keys && server.store[KeyOf(o)] == o && o.kind == kind && Selected(c, o)
    ensures forall k :: k in keys && k.kind == kind && Selected(c, server.store[k]) ==> server.store[k] in items
  {
    items := [];
    if keys != {} {
      var k :| k in keys;
      var rest := ListingExists(c, server, kind, keys - {k});
      var o := server.store[k];
      items := if o.kind == kind && Selected(c, o) then [o] + rest else rest;
    }
  }

  /** A task that has not begun can be skipped or list its kind. */
  lemma TaskCanBegin(c: Cluster, s: State, kind: Kind) returns (step: Step, queue: Option<seq<Object>>)
    requires Inv(c, s) && TaskOf(s, kind) == Some(NotStarted) && !SomeLacksUid(c, s.server, kind)
    ensures Enabled(c, s, step)
    ensures Exec(c, s, step) == SetTask(s, kind, TaskAfter(c, s.server.forbidden, kind, Ok(queue)))
  {
    queue := None;
    if !DeletesOrphans(c.strategy) {
      step := SkipTask(kind);
    } else if kind in s.server.forbidden {
      step := ListForbidden(kind);
    } else {
      var items := ListingExists(c, s.server, kind, s.server.store.Keys);
      step := Listed(kind, items);
      queue := CollectOrphans(s.ids, Retain(c, items));
      if queue.None? {
        ListedLacksUid(c, s.server, kind, items, s.ids);
      }
    }
  }

  /** A task under way can delete its first orphan or end. */
  lemma TaskCanContinue(c: Cluster, start: State, steps: seq<Step>, s: State, kind: Kind)
    returns (step: Step, queue: Option<seq<Object>>)
    requires Deleting(c, start, steps, s) && TaskOf(s, kind).Some? && TaskOf(s, kind).value.Draining?
    ensures Enabled(c, s, step)
    ensures Exec(c, s, step).tasks == Some(s.tasks.value[kind := TaskAfter(c, s.server.forbidden, kind, Ok(queue))])
    ensures Exec(c, s, step).server.forbidden == s.server.forbidden
    ensures if queue.None? then Exec(c, s, step).server == s.server
            else |Exec(c, s, step).server.store| < |s.server.store|
  {
    var q := s.tasks.value[kind].orphans;
    DrainingMayDelete(c, start, steps, s, kind);
    if q == [] {
      step, queue := FinishTask(kind), None;
      FinishIsStep(c, s, kind);
    } else {
      queue := Some(q[1..]);
      QueuedIsStored(c, start, steps, s, kind);
      step := DeleteIsStep(c, s, kind, Without(s.server, KeyOf(q[0])), true, true);
    }
  }

  lemma {:induction false} ScheduleCanBeFinished(c: Cluster, start: State, steps: seq<Step>, s: State, left: Schedule)
    returns (steps': seq<Step>, t: State)
    requires Deleting(c, start, steps, s) && Scheduled(c, s.server.forbidden, s.tasks, left)
    requires forall kind :: !SomeLacksUid(c, start.server, kind)
    ensures Deleting(c, start, steps', t) && Succeeded(t)
    decreases |left.waiting|, |s.server.store|, |left.queues|
  {
    if left.waiting + left.queues.Keys == {} {
      NothingLeftMeansSuccess(c, s, left);
      steps', t := steps, s;
    } else {
      var kind :| kind in left.waiting + left.queues.Keys;
      DeletionKeeps(c, start, steps, s);
      SomeLackedUid(c, start, steps, s, kind);
      var step, queue;
      if kind in left.waiting {
        step, queue := TaskCanBegin(c, s, kind);
      } else {
        step, queue := TaskCanContinue(c, start, steps, s, kind);
      }
      DeletingContinues(c, start, steps, s, step);
      AdvancedIsScheduled(c, s.server.forbidden, s.tasks, left, kind, queue);
      AdvancedIsSmaller(left, kind, queue);
      steps', t := ScheduleCanBeFinished(c, start, steps + [step], Exec(c, s, step), Advanced(left, kind, queue));
    }
  }

  /**
   * However the tasks have been interleaved so far, a deletion without a failed task can still
   * succeed if no object of the cluster lacks a uid.
   */
  lemma DeletionCanSucceed(c: Cluster, start: State, steps: seq<Step>, s: State)
    returns (steps': seq<Step>, t: State)
    requires Deleting(c, start, steps, s) && forall kind: Kind :: TaskOf(s, kind) != Some(Failed)
    requires forall kind :: !SomeLacksUid(c, start.server, kind)
    ensures Deleting(c, start, steps', t) && Succeeded(t)
  {
    var tasks := s.tasks.value;
    var left := Schedule(
      ALL_KINDS - tasks.Keys,
      map kind | kind in tasks && tasks[kind].Draining? :: tasks[kind].orphans);
    assert Scheduled(c, s.server.forbidden, s.tasks, left) by {
      DeletionKeeps(c, start, steps, s);
      forall kind: Kind | kind !in left.waiting
        ensures kind in tasks && (kind !in left.queues ==> tasks[kind] == Ended(c, s.server.forbidden, kind))
      {
        AllKindsAreListed(kind);
        assert TaskOf(s, kind) != Some(Failed);
        assert TaskInv(c, s.server, s.ids, kind, tasks[kind]);
      }
    }
    steps', t := ScheduleCanBeFinished(c, start, steps, s, left);
  }
}

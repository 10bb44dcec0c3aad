/** The reconciler as it is written: methods that change the working copy of the object, the control plane and the target
    cluster step by step. Every method is proved to take the step that `Protocol` describes. */
module Reconciler {
  import opened Identity
  import opened Model
  import C = Collectors
  import P = Protocol

  // ---------------------------------------------------------------- the working copy

  /** The backing array of a condition list. Copies of a status share it. */
  class ConditionList {
    var entries: Conditions

    constructor (entries: Conditions)
      ensures this.entries == entries
    {
      this.entries := entries;
    }
  }

  /** A status as it is passed around by value: the conditions stay shared. */
  datatype StatusCopy = StatusCopy(state: State, conditions: ConditionList, synced: seq<Resource>)

  /** Overwrites an entry in place, which every copy sees; appending moves the list, which only this copy sees. */
  method SetStatusCondition(status: StatusCopy, t: ConditionType, value: bool) returns (s: StatusCopy)
    modifies status.conditions
    ensures s == status.(conditions := s.conditions)
    ensures s.conditions.entries == old(status.conditions.entries)[t := value]
    ensures t in old(status.conditions.entries) ==> s == status
    ensures t !in old(status.conditions.entries) ==>
              fresh(s.conditions) && status.conditions.entries == old(status.conditions.entries)
  {
    if t in status.conditions.entries {
      status.conditions.entries := status.conditions.entries[t := value];
      s := status;
    } else {
      var moved := new ConditionList(status.conditions.entries[t := value]);
      s := status.(conditions := moved);
    }
  }

  class WorkingCopy {
    var status: StatusCopy
    var finalizers: set<Finalizer>
    const deleting: bool
    const resource: Option<ObjectKey>
    const version: nat

    constructor (o: Object)
      ensures Value() == o && fresh(status.conditions)
    {
      var list := new ConditionList(o.status.conditions);
      status := StatusCopy(o.status.state, list, o.status.synced);
      finalizers, deleting, resource, version := o.finalizers, o.deleting, o.resource, o.version;
    }

    ghost function Value(): Object
      reads this, status.conditions
    {
      Object(Status(status.state, status.conditions.entries, status.synced), finalizers, deleting, resource, version)
    }

    method SetStatus(s: StatusCopy)
      modifies this`status
      ensures status == s
    {
      status := s;
    }
  }

  // ---------------------------------------------------------------- the API servers

  class ControlPlane {
    var stored: Option<Object>

    constructor (stored: Option<Object>)
      ensures this.stored == stored
    {
      this.stored := stored;
    }

    /** The status patch takes the status of the copy whatever the resource version. */
    method PatchStatus(obj: WorkingCopy, ok: bool) returns (written: bool)
      modifies this
      ensures written <==> ok && old(stored).Some?
      ensures stored == if written
                        then Some(old(stored).value.(status := obj.Value().status, version := old(stored).value.version + 1))
                        else old(stored)
    {
      written := ok && stored.Some?;
      if written {
        var status := Status(obj.status.state, obj.status.conditions.entries, obj.status.synced);
        stored := Some(stored.value.(status := status, version := stored.value.version + 1));
      }
    }

    /** A server side apply of finalizers adds them. */
    method ApplyFinalizers(fs: set<Finalizer>, ok: bool) returns (written: bool)
      modifies this
      ensures written <==> ok && old(stored).Some?
      ensures stored == if written
                        then P.WithFinalizers(old(stored).value, old(stored).value.finalizers + fs)
                        else old(stored)
    {
      written := ok && stored.Some?;
      if written {
        stored := P.WithFinalizers(stored.value, stored.value.finalizers + fs);
      }
    }

    /** An update replaces the finalizers, unless the object was written since it was read. */
    method Update(fs: set<Finalizer>, version: nat, ok: bool) returns (written: bool)
      modifies this
      ensures written <==> ok && old(stored).Some? && old(stored).value.version == version
      ensures stored == if written then P.WithFinalizers(old(stored).value, fs) else old(stored)
    {
      written := ok && stored.Some? && stored.value.version == version;
      if written {
        stored := P.WithFinalizers(stored.value, fs);
      }
    }
  }

  class TargetCluster {
    var objects: Cluster

    constructor (objects: Cluster)
      ensures this.objects == objects
    {
      this.objects := objects;
    }

    method Delete(k: ObjectKey, refused: bool) returns (outcome: DeleteOutcome)
      modifies this
      ensures outcome == if refused then Refused else if k in old(objects) then Accepted else NotFound
      ensures objects == if outcome == Accepted then old(objects)[k := Terminating] else old(objects)
    {
      if refused {
        outcome := Refused;
      } else if k in objects {
        objects := objects[k := Terminating];
        outcome := Accepted;
      } else {
        outcome := NotFound;
      }
    }

    /** Creating or applying one object; one that is there, even if it is terminating, stays as it is. */
    method Create(k: ObjectKey)
      modifies this
      ensures objects == if k in old(objects) then old(objects) else old(objects)[k := Live]
    {
      if k !in objects {
        objects := objects[k := Live];
      }
    }
  }

  // ---------------------------------------------------------------- fan-out and fan-in

  function KeySet(infos: seq<ObjectKey>): set<ObjectKey> {
    set k | k in infos
  }

  lemma KeySetOf(infos: seq<ObjectKey>, k: ObjectKey)
    ensures KeySet(infos + [k]) == KeySet(infos) + {k}
  {
  }

  /** Some worker is the next to be done. */
  method Take(rest: seq<ObjectKey>) returns (k: ObjectKey, remaining: seq<ObjectKey>)
    requires rest != []
    ensures k in rest && |remaining| == |rest| - 1
    ensures KeySet(rest) == KeySet(remaining) + {k}
  {
    var i :| 0 <= i < |rest|;
    k, remaining := rest[i], rest[..i] + rest[i + 1..];
    assert rest == rest[..i] + [k] + rest[i + 1..];
  }

  function ReplyOf(o: DeleteOutcome): C.Reply {
    match o
    case Accepted => None
    case NotFound => Some(C.Err(C.IsNotFound, ""))
    case Refused => Some(C.Err(C.IsOther, ""))
  }

  /** The replies that arrived are those of the keys that are done. */
  ghost predicate Answered(arrivals: seq<C.Reply>, outcomes: map<ObjectKey, DeleteOutcome>) {
    forall r :: r in arrivals <==> exists k :: k in outcomes && r == ReplyOf(outcomes[k])
  }

  lemma DeletedOneMore(c: Cluster, done: set<ObjectKey>, faults: set<ObjectKey>, k: ObjectKey)
    ensures P.Outcomes(c, done + {k}, faults) == P.Outcomes(c, done, faults)[k := P.OutcomeOf(c, faults, k)]
    ensures P.AfterDeletes(c, done + {k}, faults) ==
            if P.OutcomeOf(c, faults, k) == Accepted then P.AfterDeletes(c, done, faults)[k := Terminating]
            else P.AfterDeletes(c, done, faults)
    ensures k in P.AfterDeletes(c, done, faults) <==> k in c
  {
  }

  lemma AnsweredOneMore(arrivals: seq<C.Reply>, outcomes: map<ObjectKey, DeleteOutcome>, k: ObjectKey, o: DeleteOutcome)
    requires Answered(arrivals, outcomes) && (k in outcomes ==> outcomes[k] == o)
    ensures Answered(arrivals + [ReplyOf(o)], outcomes[k := o])
  {
    var after := outcomes[k := o];
    forall r ensures r in arrivals + [ReplyOf(o)] <==> exists x :: x in after && r == ReplyOf(after[x]) {
      if r == ReplyOf(o) {
        assert r == ReplyOf(after[k]);
      } else if x :| x in outcomes && r == ReplyOf(outcomes[x]) {
        assert x in after && r == ReplyOf(after[x]);
      }
    }
  }

  lemma VerdictOfReplies(arrivals: seq<C.Reply>, outcomes: map<ObjectKey, DeleteOutcome>)
    requires Answered(arrivals, outcomes)
    ensures var r := C.CleanupOutcome(arrivals);
            P.CleanupVerdict(outcomes) == if r.Multi? then Failed else if r == C.Fine then Passed else NotReady
  {
    C.CleanupMeaning(arrivals);
    forall o: DeleteOutcome ensures o in outcomes.Values <==> ReplyOf(o) in arrivals {
      if o in outcomes.Values {
        var k :| k in outcomes && outcomes[k] == o;
        assert ReplyOf(outcomes[k]) in arrivals;
      }
      if ReplyOf(o) in arrivals {
        var k :| k in outcomes && ReplyOf(o) == ReplyOf(outcomes[k]);
        assert outcomes[k] in outcomes.Values;
      }
    }
    forall r | r in arrivals ensures r in {ReplyOf(Accepted), ReplyOf(NotFound), ReplyOf(Refused)} {
      var k :| k in outcomes && r == ReplyOf(outcomes[k]);
    }
  }

  /** One worker per object deletes it; the replies come back in any order. */
  method DeleteAll(cluster: TargetCluster, infos: seq<ObjectKey>, faults: set<ObjectKey>)
      returns (outcomes: map<ObjectKey, DeleteOutcome>, arrivals: seq<C.Reply>)
    modifies cluster
    ensures outcomes == P.Outcomes(old(cluster.objects), KeySet(infos), faults)
    ensures cluster.objects == P.AfterDeletes(old(cluster.objects), KeySet(infos), faults)
    ensures Answered(arrivals, outcomes)
  {
    ghost var before := cluster.objects;
    var rest := infos;
    outcomes, arrivals := map[], [];
    while rest != []
      invariant KeySet(infos) == outcomes.Keys + KeySet(rest)
      invariant outcomes == P.Outcomes(before, outcomes.Keys, faults)
      invariant cluster.objects == P.AfterDeletes(before, outcomes.Keys, faults)
      invariant Answered(arrivals, outcomes)
      decreases |rest|
    {
      var k, remaining := Take(rest);
      var outcome := cluster.Delete(k, k in faults);
      DeletedOneMore(before, outcomes.Keys, faults, k);
      AnsweredOneMore(arrivals, outcomes, k, outcome);
      outcomes, arrivals, rest := outcomes[k := outcome], arrivals + [ReplyOf(outcome)], remaining;
    }
  }

  method RunCleanup(cluster: TargetCluster, infos: seq<ObjectKey>, faults: set<ObjectKey>)
      returns (outcomes: map<ObjectKey, DeleteOutcome>, verdict: Verdict)
    modifies cluster
    ensures outcomes == P.Outcomes(old(cluster.objects), KeySet(infos), faults)
    ensures cluster.objects == P.AfterDeletes(old(cluster.objects), KeySet(infos), faults)
    ensures verdict == P.CleanupVerdict(outcomes)
  {
    var arrivals;
    outcomes, arrivals := DeleteAll(cluster, infos, faults);
    VerdictOfReplies(arrivals, outcomes);
    var r := C.CollectCleanup(arrivals);
    verdict := if r.Multi? then Failed else if r == C.Fine then Passed else NotReady;
  }

  /** One worker per object applies it. */
  method RunApply(cluster: TargetCluster, infos: seq<ObjectKey>, e: Env) returns (landed: set<ObjectKey>, ok: bool)
    modifies cluster
    ensures landed == P.Landed(e, KeySet(infos))
    ensures cluster.objects == P.AfterCreates(old(cluster.objects), landed)
    ensures ok <==> KeySet(infos) * e.applyFaults == {}
  {
    ghost var before := cluster.objects;
    var rest, arrivals: seq<C.Reply> := infos, [];
    landed := {};
    ghost var done: set<ObjectKey> := {};
    while rest != []
      invariant KeySet(infos) == done + KeySet(rest)
      invariant landed == P.Landed(e, done)
      invariant cluster.objects == P.AfterCreates(before, landed)
      invariant (forall a | a in arrivals :: a == None) <==> done * e.applyFaults == {}
      decreases |rest|
    {
      var k, remaining := Take(rest);
      if k !in e.applyFaults || k in e.applyLanded {
        cluster.Create(k);
        landed := landed + {k};
      }
      var reply: C.Reply := if k in e.applyFaults then Some(C.Err(C.IsOther, "")) else None;
      assert k in e.applyFaults ==> k in (done + {k}) * e.applyFaults;
      assert k !in e.applyFaults ==> (done + {k}) * e.applyFaults == done * e.applyFaults;
      assert forall a :: a in arrivals + [reply] <==> a in arrivals || a == reply;
      done, arrivals, rest := done + {k}, arrivals + [reply], remaining;
      assert reply in arrivals;
    }
    var r := C.CollectApplies(arrivals);
    ok := r == C.Fine;
  }

  /** One worker per CRD creates it; that one exists already is no error. */
  method InstallCRDs(cluster: TargetCluster, crds: seq<ObjectKey>, faults: set<ObjectKey>)
      returns (created: set<ObjectKey>, ok: bool)
    modifies cluster
    ensures created == KeySet(crds) - faults - old(cluster.objects).Keys
    ensures cluster.objects == P.AfterCreates(old(cluster.objects), created)
    ensures ok <==> KeySet(crds) * faults == {}
  {
    ghost var before := cluster.objects;
    var rest, arrivals: seq<C.Reply> := crds, [];
    created := {};
    ghost var done: set<ObjectKey> := {};
    while rest != []
      invariant KeySet(crds) == done + KeySet(rest)
      invariant created == done - faults - before.Keys
      invariant cluster.objects == P.AfterCreates(before, created)
      invariant (forall a | a in arrivals :: a == None || a.value.kind == C.IsAlreadyExists) <==> done * faults == {}
      decreases |rest|
    {
      var k, remaining := Take(rest);
      var reply: C.Reply := None;
      if k in faults {
        reply := Some(C.Err(C.IsOther, ""));
      } else if k in cluster.objects {
        reply := Some(C.Err(C.IsAlreadyExists, ""));
      } else {
        cluster.Create(k);
        created := created + {k};
      }
      assert k in faults ==> k in (done + {k}) * faults;
      assert k !in faults ==> (done + {k}) * faults == done * faults;
      assert forall a :: a in arrivals + [reply] <==> a in arrivals || a == reply;
      done, arrivals, rest := done + {k}, arrivals + [reply], remaining;
    }
    var r := C.CollectInstalls(arrivals);
    ok := r == C.Fine;
  }

  /** The objects of a set, in some order. */
  method InSomeOrder(keys: set<ObjectKey>) returns (list: seq<ObjectKey>)
    ensures KeySet(list) == keys
  {
    var rest := keys;
    list := [];
    while rest != {}
      invariant KeySet(list) + rest == keys
      decreases rest
    {
      var k :| k in rest;
      list, rest := list + [k], rest - {k};
    }
  }

  /** The list difference: the tracked resources that no target resource matches. */
  method Difference(m: Matcher, current: seq<Resource>, target: seq<Resource>) returns (diff: seq<ObjectKey>)
    ensures KeySet(diff) == P.Dropped(m, current, target)
  {
    var wanted: set<ObjectKey> := {};
    for i := 0 to |target|
      invariant wanted == MatchKeys(m, target[..i])
    {
      assert target[..i + 1] == target[..i] + [target[i]];
      wanted := wanted + {target[i].MatchKey(m)};
    }
    assert target[..|target|] == target;
    diff := [];
    for i := 0 to |current|
      invariant KeySet(diff) == P.Dropped(m, current[..i], target)
    {
      assert current[..i + 1] == current[..i] + [current[i]];
      if current[i].MatchKey(m) !in wanted {
        KeySetOf(diff, current[i].Key());
        diff := diff + [current[i].Key()];
      }
    }
    assert current[..|current|] == current;
  }

  method KeysOf(rs: seq<Resource>) returns (infos: seq<ObjectKey>)
    ensures KeySet(infos) == Keys(rs)
  {
    infos := [];
    for i := 0 to |rs|
      invariant KeySet(infos) == Keys(rs[..i])
    {
      assert rs[..i + 1] == rs[..i] + [rs[i]];
      KeySetOf(infos, rs[i].Key());
      infos := infos + [rs[i].Key()];
    }
    assert rs[..|rs|] == rs;
  }

  // ---------------------------------------------------------------- the reconciler

  function StageOf(go: bool, c: P.Ctx): P.Stage {
    if go then P.Go(c) else P.Stop(c)
  }

  function PrunedOf(v: Verdict, c: P.Ctx): P.Pruned {
    match v
    case Passed => P.Clean(c)
    case NotReady => P.Waiting(c)
    case Failed => P.Broken(c)
  }

  class Reconciler {
    const cfg: Config
    const plane: ControlPlane
    const cluster: TargetCluster
    var journal: seq<Event>

    constructor (cfg: Config, plane: ControlPlane, cluster: TargetCluster)
      ensures this.cfg == cfg && this.plane == plane && this.cluster == cluster && journal == []
    {
      this.cfg, this.plane, this.cluster, this.journal := cfg, plane, cluster, [];
    }

    ghost function World(): World
      reads this, plane, cluster
    {
      Model.World(plane.stored, cluster.objects)
    }

    ghost function Now(obj: WorkingCopy): P.Ctx
      reads this, plane, cluster, obj, obj.status.conditions
    {
      P.Ctx(obj.Value(), World(), journal)
    }

    method Log(e: Event)
      modifies this`journal
      ensures journal == old(journal) + [e]
    {
      journal := journal + [e];
    }

    // -------------------------------------------------------------- stages

    method Initialize(obj: WorkingCopy) returns (go: bool)
      modifies obj`status, obj.status.conditions
      ensures StageOf(go, Now(obj)) == P.Initialize(old(Now(obj)))
      ensures obj.status.conditions == old(obj.status.conditions) || fresh(obj.status.conditions)
    {
      var status := obj.status;
      if obj.deleting && status.state != StateDeleting {
        obj.SetStatus(status.(state := StateDeleting));
        return false;
      }
      if Resources !in status.conditions.entries {
        status := SetStatusCondition(status, Resources, false);
      }
      if Installation !in status.conditions.entries {
        status := SetStatusCondition(status, Installation, false);
      }
      if status.state == StateUnset {
        obj.SetStatus(status.(state := StateProcessing));
        return false;
      }
      obj.SetStatus(status);
      go := true;
    }

    method MarkCRDs(obj: WorkingCopy, ready: bool, state: State)
      modifies obj`status, obj.status.conditions
      ensures Now(obj) == P.CRDsAre(old(Now(obj)), ready).SetState(state)
      ensures obj.status.conditions == old(obj.status.conditions) || fresh(obj.status.conditions)
    {
      var status := SetStatusCondition(obj.status, HelmCRDs, ready);
      obj.SetStatus(status.(state := state));
    }

    method CreateCRDs(obj: WorkingCopy, crds: set<ObjectKey>, faults: set<ObjectKey>) returns (ok: bool)
      modifies this`journal, cluster
      ensures Now(obj) == P.CreateCRDs(old(Now(obj)), crds, faults)
      ensures ok <==> crds * faults == {}
    {
      var list := InSomeOrder(crds);
      var created;
      created, ok := InstallCRDs(cluster, list, faults);
      Log(PrerequisitesInstalled(created));
    }

    method JudgeCRDs(obj: WorkingCopy, check: Verdict) returns (go: bool)
      modifies obj`status, obj.status.conditions
      ensures StageOf(go, Now(obj)) == P.JudgeCRDs(old(Now(obj)), check)
      ensures obj.status.conditions == old(obj.status.conditions) || fresh(obj.status.conditions)
    {
      if check == Failed {
        MarkCRDs(obj, false, StateError);
        return false;
      }
      MarkCRDs(obj, check == Passed, obj.status.state);
      go := check == Passed;
    }

    method InstallPrerequisites(obj: WorkingCopy, crds: set<ObjectKey>, e: Env) returns (go: bool)
      modifies this`journal, cluster, obj`status, obj.status.conditions
      ensures StageOf(go, Now(obj)) ==
              P.JudgeCRDs(P.CreateCRDs(old(Now(obj)), crds, e.crdFaults),
                          if crds * e.crdFaults != {} then Failed else e.crdCheck)
      ensures obj.status.conditions == old(obj.status.conditions) || fresh(obj.status.conditions)
    {
      var installed := CreateCRDs(obj, crds, e.crdFaults);
      go := JudgeCRDs(obj, if installed then e.crdCheck else Failed);
    }

    method EnsurePrerequisites(obj: WorkingCopy, e: Env) returns (go: bool)
      modifies this`journal, cluster, obj`status, obj.status.conditions
      ensures StageOf(go, Now(obj)) == P.EnsurePrerequisites(old(Now(obj)), e)
      ensures obj.status.conditions == old(obj.status.conditions) || fresh(obj.status.conditions)
    {
      if !obj.deleting && HelmCRDs in obj.status.conditions.entries && obj.status.conditions.entries[HelmCRDs] {
        return true;
      }
      if !e.chart.Chart? {
        MarkCRDs(obj, false, StateError);
        return false;
      }
      go := InstallPrerequisites(obj, e.chart.crds, e);
    }

    /** Spec resolution, target client, renderer. */
    method Prepare(obj: WorkingCopy, e: Env) returns (go: bool)
      modifies this`journal, cluster, obj`status, obj.status.conditions
      ensures StageOf(go, Now(obj)) == P.Prepare(old(Now(obj)), e)
      ensures obj.status.conditions == old(obj.status.conditions) || fresh(obj.status.conditions)
    {
      if e.spec.None? || !e.client {
        obj.SetStatus(obj.status.(state := StateError));
        return false;
      }
      if e.spec.value != Helm {
        return true;
      }
      var status := obj.status;
      if HelmCRDs !in status.conditions.entries {
        status := SetStatusCondition(status, HelmCRDs, false);
        obj.SetStatus(status);
        return false;
      }
      go := EnsurePrerequisites(obj, e);
    }

    /** A Helm render that cannot load its chart takes the condition back, in the shared list. */
    method FailingRender(obj: WorkingCopy, e: Env)
      requires e.rendering.RenderFailed?
      modifies obj`status, obj.status.conditions
      ensures obj.status.conditions == old(obj.status.conditions) || fresh(obj.status.conditions)
      ensures (e.spec == Some(Helm) ==> HelmCRDs in old(obj.status.conditions.entries)) ==>
                obj.status.conditions == old(obj.status.conditions)
      ensures obj.status == old(obj.status).(state := StateError, conditions := obj.status.conditions)
      ensures var entries := old(obj.status.conditions.entries);
              obj.status.conditions.entries ==
                if e.rendering.resetsCRDs && e.spec == Some(Helm) then entries[HelmCRDs := false] else entries
    {
      var status := obj.status;
      if e.rendering.resetsCRDs && e.spec == Some(Helm) {
        status := SetStatusCondition(status, HelmCRDs, false);
      }
      obj.SetStatus(status.(state := StateError));
    }

    /** The error of a render is reported by each caller on the way up, each time with the copy of the status that the
        caller took before; the condition that was taken back survives because the copies share their list. */
    method RenderTarget(obj: WorkingCopy, e: Env) returns (target: seq<Resource>, go: bool)
      requires e.spec == Some(Helm) ==> HelmCRDs in obj.status.conditions.entries
      modifies obj`status, obj.status.conditions
      ensures go <==> obj.deleting || e.rendering.Rendered?
      ensures target == P.Target(obj.deleting, e)
      ensures go ==> Now(obj) == old(Now(obj))
      ensures !go ==> P.Stop(Now(obj)) == P.RenderResources(old(Now(obj)), e)
      ensures obj.status.conditions == old(obj.status.conditions)
    {
      if obj.deleting {
        return [], true;
      }
      var status := obj.status;
      if e.rendering.RenderFailed? {
        FailingRender(obj, e);
        obj.SetStatus(status.(state := StateError));
        return [], false;
      }
      return e.rendering.target, true;
    }

    method RenderResources(obj: WorkingCopy, e: Env) returns (target: seq<Resource>, current: seq<Resource>, go: bool)
      requires e.spec == Some(Helm) ==> HelmCRDs in obj.status.conditions.entries
      modifies obj`status, obj.status.conditions
      ensures StageOf(go, Now(obj)) == P.RenderResources(old(Now(obj)), e)
      ensures go ==> target == P.Target(obj.deleting, e) && current == old(obj.status.synced)
      ensures obj.status.conditions == old(obj.status.conditions) || fresh(obj.status.conditions)
    {
      var status := obj.status;
      current := status.synced;
      target, go := RenderTarget(obj, e);
      if !go {
        return;
      }
      if !e.current {
        obj.SetStatus(status.(state := StateError));
        go := false;
        return;
      }
      if !(Resources in status.conditions.entries && status.conditions.entries[Resources]) {
        status := SetStatusCondition(status, Resources, true);
        obj.SetStatus(status);
      }
    }

    /** Deletes the custom resource, and once it is gone takes its finalizer off a second copy of the object. */
    method PreDelete(obj: WorkingCopy, e: Env) returns (go: bool)
      modifies this`journal, plane, cluster
      ensures StageOf(go, Now(obj)) == P.PreDelete(old(Now(obj)), e)
    {
      if obj.resource.None? {
        return true;
      }
      var k := obj.resource.value;
      var outcome := cluster.Delete(k, !e.customResource);
      Log(CustomResourceDeleted(k, outcome));
      assert outcome == Accepted ==> cluster.objects == P.AfterDeletes(old(cluster.objects), {k}, {});
      if outcome != NotFound {
        return false;
      }
      var onCluster := plane.stored;
      if onCluster.None? {
        return true;
      }
      if !e.hookRead {
        return false;
      }
      if OfCustomResource in onCluster.value.finalizers {
        var fs := onCluster.value.finalizers - {OfCustomResource};
        var written := plane.Update(fs, onCluster.value.version, e.hookWrite);
        if !written {
          return false;
        }
        Log(CustomResourceFinalizerDropped);
      }
      go := true;
    }

    method Cleanup(obj: WorkingCopy, e: Env, diff: seq<ObjectKey>) returns (v: Verdict)
      modifies this`journal, cluster, obj`status
      ensures PrunedOf(v, Now(obj)) == P.Cleanup(old(Now(obj)), e, KeySet(diff))
      ensures obj.status.conditions == old(obj.status.conditions)
    {
      var status := obj.status;
      var outcomes, verdict := RunCleanup(cluster, diff, e.deleteFaults);
      Log(Cleaned(outcomes, obj.deleting));
      if verdict == Failed {
        obj.SetStatus(status.(state := StateError));
      }
      v := verdict;
    }

    method RemovePrerequisites(obj: WorkingCopy, e: Env) returns (v: Verdict)
      modifies this`journal, cluster, obj`status
      ensures PrunedOf(v, Now(obj)) == P.RemovePrerequisites(old(Now(obj)), e)
      ensures obj.status.conditions == old(obj.status.conditions)
    {
      if e.spec != Some(Helm) || !e.chart.Chart? {
        return Passed;
      }
      var status := obj.status;
      var crds := InSomeOrder(e.chart.crds);
      var outcomes, verdict := RunCleanup(cluster, crds, e.deleteFaults);
      Log(PrerequisitesCleaned(outcomes));
      if verdict == Failed {
        obj.SetStatus(status.(state := StateError));
      }
      v := verdict;
    }

    method PruneDiff(obj: WorkingCopy, e: Env, diff: seq<ObjectKey>) returns (v: Verdict)
      modifies this`journal, plane, cluster, obj`status
      ensures PrunedOf(v, Now(obj)) == P.PruneDiff(cfg, old(Now(obj)), e, KeySet(diff))
      ensures obj.status.conditions == old(obj.status.conditions)
    {
      if obj.deleting {
        var go := PreDelete(obj, e);
        if !go {
          return Failed;
        }
      }
      v := Cleanup(obj, e, diff);
      if v != Passed || !obj.deleting || !cfg.deletePrerequisites {
        return;
      }
      v := RemovePrerequisites(obj, e);
    }

    /** Creates the custom resource if it is missing and adds its finalizer. */
    method PostRun(obj: WorkingCopy, e: Env) returns (go: bool)
      modifies this`journal, plane, cluster
      ensures StageOf(go, Now(obj)) == P.PostRun(old(Now(obj)), e)
    {
      if obj.resource.None? {
        return true;
      }
      if !e.customResource {
        return false;
      }
      var k := obj.resource.value;
      var made := {k} - cluster.objects.Keys;
      cluster.Create(k);
      Log(CustomResourceCreated(made));
      assert cluster.objects == P.AfterCreates(old(cluster.objects), made);
      if OfCustomResource !in obj.finalizers {
        var fs := obj.finalizers + {OfCustomResource};
        var written := plane.ApplyFinalizers(fs, e.hookWrite);
        if !written {
          return false;
        }
        assert forall x: set<Finalizer> :: x + fs == x + obj.finalizers + {OfCustomResource};
        Log(CustomResourceFinalizerAdded);
      }
      go := true;
    }

    method CheckReadiness(obj: WorkingCopy, e: Env) returns (go: bool)
      modifies this`journal, obj`status, obj.status.conditions
      ensures StageOf(go, Now(obj)) == P.CheckReadiness(old(Now(obj)), e)
      ensures obj.status.conditions == old(obj.status.conditions) || fresh(obj.status.conditions)
    {
      var status := obj.status;
      Log(ReadyChecked(e.check));
      if e.check == NotReady {
        obj.SetStatus(status.(state := StateProcessing));
        return false;
      }
      if e.check == Failed {
        obj.SetStatus(status.(state := StateError));
        return false;
      }
      var installed := Installation in status.conditions.entries && status.conditions.entries[Installation];
      if !installed || status.state != StateReady {
        status := SetStatusCondition(status, Installation, true);
        obj.SetStatus(status.(state := StateReady));
        return false;
      }
      go := true;
    }

    method SyncResources(obj: WorkingCopy, e: Env, target: seq<Resource>) returns (go: bool)
      modifies this`journal, plane, cluster, obj`status, obj.status.conditions
      ensures StageOf(go, Now(obj)) == P.SyncResources(old(Now(obj)), e, target)
      ensures obj.status.conditions == old(obj.status.conditions) || fresh(obj.status.conditions)
    {
      var status := obj.status;
      var infos := KeysOf(target);
      var landed, ok := RunApply(cluster, infos, e);
      Log(Applied(target, landed, KeySet(infos) * e.applyFaults));
      if !ok {
        obj.SetStatus(status.(state := StateError));
        return false;
      }
      var oldSynced := status.synced;
      status := status.(synced := target);
      var diff := ResourcesDiff(oldSynced, target);
      if diff != [] {
        obj.SetStatus(status.(state := StateProcessing));
        return false;
      }
      go := PostRun(obj, e);
      if !go {
        obj.SetStatus(status.(state := StateError));
        return;
      }
      go := CheckReadiness(obj, e);
    }

    // -------------------------------------------------------------- ends of a round

    method WriteStatus(obj: WorkingCopy, e: Env) returns (result: Result)
      modifies this`journal, plane
      ensures P.Round(World(), journal, result) == P.WriteStatus(old(Now(obj)), e)
    {
      var written := plane.PatchStatus(obj, e.write);
      if written {
        Log(StatusWritten(obj.status.state, obj.status.synced));
      }
      result := Requeue;
    }

    method FinishDeletion(obj: WorkingCopy, e: Env) returns (result: Result)
      modifies this`journal, plane, obj`status, obj`finalizers
      ensures P.Round(World(), journal, result) == P.FinishDeletion(old(Now(obj)), e)
    {
      if Own in obj.finalizers {
        obj.finalizers := obj.finalizers - {Own};
        var written := plane.Update(obj.finalizers, obj.version, e.update);
        if written {
          Log(OwnFinalizerDropped);
        }
        return Updated;
      }
      obj.SetStatus(obj.status.(state := StateDeleting));
      result := WriteStatus(obj, e);
    }

    /** From the rendered target to the end of the round. */
    method PruneAndSync(obj: WorkingCopy, e: Env, target: seq<Resource>, diff: seq<ObjectKey>) returns (result: Result)
      modifies this`journal, plane, cluster, obj`status, obj`finalizers, obj.status.conditions
      ensures P.Round(World(), journal, result) ==
              P.AfterPrune(P.PruneDiff(cfg, old(Now(obj)), e, KeySet(diff)), e, target)
    {
      var v := PruneDiff(obj, e, diff);
      if v == NotReady {
        return Requeue;
      }
      if v == Failed {
        result := WriteStatus(obj, e);
        return;
      }
      if obj.deleting {
        result := FinishDeletion(obj, e);
        return;
      }
      var go := SyncResources(obj, e, target);
      if !go {
        result := WriteStatus(obj, e);
        return;
      }
      result := OnSuccess;
    }

    method RenderAndPrune(obj: WorkingCopy, e: Env) returns (result: Result)
      requires e.spec == Some(Helm) ==> HelmCRDs in obj.status.conditions.entries
      modifies this`journal, plane, cluster, obj`status, obj`finalizers, obj.status.conditions
      ensures P.Round(World(), journal, result) == P.AfterPrepare(cfg, old(Now(obj)), e)
    {
      var target, current, ok := RenderResources(obj, e);
      if !ok {
        result := WriteStatus(obj, e);
        return;
      }
      var diff := Difference(cfg.matcher, current, target);
      result := PruneAndSync(obj, e, target, diff);
    }

    /** One round. It takes exactly the step that the protocol describes. */
    method Reconcile(e: Env) returns (result: Result)
      modifies this`journal, plane, cluster
      ensures World() == P.Reconcile(cfg, old(World()), e).world
      ensures result == P.Reconcile(cfg, old(World()), e).result
      ensures journal == P.Reconcile(cfg, old(World()), e).log
    {
      journal := [];
      if plane.stored.None? || !e.get || e.skip {
        return Ignored;
      }
      var obj := new WorkingCopy(plane.stored.value);
      var go := Initialize(obj);
      if !go {
        result := WriteStatus(obj, e);
        return;
      }
      if !obj.deleting && Own !in obj.finalizers {
        var fs := obj.finalizers + {Own};
        assert plane.stored.value.finalizers + fs == plane.stored.value.finalizers + obj.finalizers + {Own};
        var written := plane.ApplyFinalizers(fs, e.write);
        if written {
          Log(OwnFinalizerAdded);
        }
        return Requeue;
      }
      go := Prepare(obj, e);
      if !go {
        result := WriteStatus(obj, e);
        return;
      }
      result := RenderAndPrune(obj, e);
    }
  }
}

/** Where a round ends, told from the world and the answers alone, and what it then reports, persists and leaves in the cluster. */
module Endings {
  import opened Identity
  import opened Model
  import opened Protocol
  import L = Landing

  datatype Ending =
    | Unread                // there is no object, the read failed, or the object is skipped
    | DeletionNoticed
    | Started
    | FinalizerMissing
    | Unresolved            // no spec, or no client
    | CRDsUnregistered
    | CRDsFailed
    | CRDsPending
    | RenderingFailed
    | ReadingBackFailed
    | ResourceRemains       // the hook of a deletion does not get through
    | PruningFailed
    | PruningPending
    | PrerequisitesFailed
    | PrerequisitesPending
    | Releasing
    | OthersRemain
    | ApplyingFailed
    | ListChanged
    | HookFailed
    | NotYetReady
    | CheckFailed
    | JustReady
    | AtRest

  // ---------------------------------------------------------------- where a round ends

  /** The round looks at the definitions of the chart. */
  predicate Consults(o: Object, e: Env) {
    e.spec == Some(Helm) && (o.deleting || HelmCRDs !in o.status.conditions || !o.status.conditions[HelmCRDs])
  }

  /** They are all there, and ready. */
  predicate CRDsPass(e: Env) {
    e.chart.Chart? && e.chart.crds * e.crdFaults == {} && e.crdCheck == Passed
  }

  predicate CRDsWait(e: Env) {
    e.chart.Chart? && e.chart.crds * e.crdFaults == {} && e.crdCheck == NotReady
  }

  function Definitions(e: Env): set<ObjectKey> {
    if e.chart.Chart? then e.chart.crds else {}
  }

  function Installed(o: Object, e: Env): set<ObjectKey> {
    if Consults(o, e) then Definitions(e) - e.crdFaults else {}
  }

  /** What is there once the definitions have been created. */
  function Present(w: World, o: Object, e: Env): set<ObjectKey> {
    w.cluster.Keys + Installed(o, e)
  }

  /** The hook of a deletion reports the custom resource gone and takes its finalizer away. */
  predicate ResourceGone(o: Object, e: Env, present: set<ObjectKey>) {
    o.resource.Some? ==>
      e.customResource && o.resource.value !in present && e.hookRead && (OfCustomResource in o.finalizers ==> e.hookWrite)
  }

  /** What the target drops. */
  function Excess(cfg: Config, o: Object, e: Env): set<ObjectKey> {
    Dropped(cfg.matcher, o.status.synced, Target(o.deleting, e))
  }

  predicate RemovesDefinitions(cfg: Config, e: Env) {
    cfg.deletePrerequisites && e.spec == Some(Helm)
  }

  function EndOfDeletion(cfg: Config, o: Object, e: Env, present: set<ObjectKey>): Ending {
    if !ResourceGone(o, e, present) then ResourceRemains
    else if Keys(o.status.synced) * e.deleteFaults != {} then PruningFailed
    else if Keys(o.status.synced) * present != {} then PruningPending
    else if RemovesDefinitions(cfg, e) && Definitions(e) * e.deleteFaults != {} then PrerequisitesFailed
    else if RemovesDefinitions(cfg, e) && Definitions(e) * present != {} then PrerequisitesPending
    else if Own in o.finalizers then Releasing
    else OthersRemain
  }

  function EndOfSync(o: Object, e: Env): Ending {
    var target := Target(false, e);
    if Keys(target) * e.applyFaults != {} then ApplyingFailed
    else if DiffOf(o.status.synced, target) != [] then ListChanged
    else if !L.HookPasses(o, e) then HookFailed
    else if e.check == NotReady then NotYetReady
    else if e.check == Failed then CheckFailed
    else if o.status.state == StateReady && Value(o.status.conditions, Installation) == Some(true) then AtRest
    else JustReady
  }

  function EndOfPruning(cfg: Config, o: Object, e: Env, present: set<ObjectKey>): Ending {
    if o.deleting then EndOfDeletion(cfg, o, e, present)
    else if Excess(cfg, o, e) * e.deleteFaults != {} then PruningFailed
    else if Excess(cfg, o, e) * present != {} then PruningPending
    else EndOfSync(o, e)
  }

  function EndOfPreparation(cfg: Config, w: World, o: Object, e: Env): Ending {
    if e.spec.None? || !e.client then Unresolved
    else if e.spec.value == Helm && HelmCRDs !in o.status.conditions then CRDsUnregistered
    else if Consults(o, e) && CRDsWait(e) then CRDsPending
    else if Consults(o, e) && !CRDsPass(e) then CRDsFailed
    else if !o.deleting && e.rendering.RenderFailed? then RenderingFailed
    else if !e.current then ReadingBackFailed
    else EndOfPruning(cfg, o, e, Present(w, o, e))
  }

  function EndingOf(cfg: Config, w: World, e: Env): Ending {
    if w.stored.None? || !e.get || e.skip then Unread
    else
      var o := w.stored.value;
      if o.deleting && o.status.state != StateDeleting then DeletionNoticed
      else if o.status.state == StateUnset then Started
      else if !o.deleting && Own !in o.finalizers then FinalizerMissing
      else EndOfPreparation(cfg, w, o, e)
  }

  // ---------------------------------------------------------------- what it then reports and persists

  function ResultOf(end: Ending): Result {
    match end
    case Unread => Ignored
    case Releasing => Updated
    case AtRest => OnSuccess
    case _ => Requeue
  }

  /** The round ends with a status patch. */
  predicate Patches(end: Ending) {
    !(end.Unread? || end.FinalizerMissing? || end.PruningPending? || end.PrerequisitesPending? || end.Releasing? || end.AtRest?)
  }

  predicate BeforeCRDs(end: Ending) {
    end.Unread? || end.DeletionNoticed? || end.Started? || end.FinalizerMissing? || end.Unresolved? || end.CRDsUnregistered?
  }

  predicate BeforePruning(end: Ending) {
    BeforeCRDs(end) || end.CRDsFailed? || end.CRDsPending? || end.RenderingFailed? || end.ReadingBackFailed?
  }

  predicate Applies(end: Ending) {
    || end.ApplyingFailed? || end.ListChanged? || end.HookFailed?
    || end.NotYetReady? || end.CheckFailed? || end.JustReady? || end.AtRest?
  }

  predicate Checks(end: Ending) {
    end.NotYetReady? || end.CheckFailed? || end.JustReady? || end.AtRest?
  }

  function StateAfter(end: Ending, o: Object): State {
    match end
    case DeletionNoticed => StateDeleting
    case OthersRemain => StateDeleting
    case Started => StateProcessing
    case ListChanged => StateProcessing
    case NotYetReady => StateProcessing
    case JustReady => StateReady
    case Unresolved => StateError
    case CRDsFailed => StateError
    case RenderingFailed => StateError
    case ReadingBackFailed => StateError
    case PruningFailed => StateError
    case PrerequisitesFailed => StateError
    case ApplyingFailed => StateError
    case HookFailed => StateError
    case CheckFailed => StateError
    case _ => o.status.state
  }

  /** A condition after the patch: absent, False or True. */
  function ConditionAfter(end: Ending, o: Object, e: Env, t: ConditionType): Option<bool> {
    var before := Value(o.status.conditions, t);
    var registered := if end.DeletionNoticed? || before.Some? then before else Some(false);
    match t
    case Resources => if BeforePruning(end) then registered else Some(true)
    case Installation => if end.JustReady? then Some(true) else registered
    case HelmCRDs =>
      if end.CRDsUnregistered? || end.CRDsFailed? || end.CRDsPending? then Some(false)
      else if end.RenderingFailed? && e.spec == Some(Helm) && e.rendering.RenderFailed? && e.rendering.resetsCRDs then Some(false)
      else if Consults(o, e) && !BeforeCRDs(end) then Some(true)
      else before
  }

  function Value(c: Conditions, t: ConditionType): Option<bool> {
    if t in c then Some(c[t]) else None
  }

  predicate ConditionsAre(c: Conditions, end: Ending, o: Object, e: Env) {
    && Value(c, Resources) == ConditionAfter(end, o, e, Resources)
    && Value(c, Installation) == ConditionAfter(end, o, e, Installation)
    && Value(c, HelmCRDs) == ConditionAfter(end, o, e, HelmCRDs)
  }

  function TrackedAfter(end: Ending, o: Object, e: Env): seq<Resource> {
    if end.ListChanged? || end.HookFailed? then Target(false, e) else o.status.synced
  }

  ghost predicate StatusIs(s: Status, end: Ending, o: Object, e: Env) {
    s.state == StateAfter(end, o) && ConditionsAre(s.conditions, end, o, e) && s.synced == TrackedAfter(end, o, e)
  }

  /** The finalizers once the hook of a deletion got through. */
  function Kept(o: Object): set<Finalizer> {
    if o.resource.Some? then o.finalizers - {OfCustomResource} else o.finalizers
  }

  function FinalizersAfter(end: Ending, o: Object, e: Env): set<Finalizer> {
    if end.FinalizerMissing? then
      if e.write then o.finalizers + {Own} else o.finalizers
    else if end.Releasing? then
      if e.update && Kept(o) == o.finalizers then o.finalizers - {Own} else Kept(o)
    else if o.deleting && !BeforePruning(end) && !end.ResourceRemains? then
      Kept(o)
    else if Checks(end) && o.resource.Some? then
      o.finalizers + {OfCustomResource}
    else
      o.finalizers
  }

  // ---------------------------------------------------------------- what it leaves in the cluster

  function CreatedAfter(end: Ending, o: Object, e: Env): set<ObjectKey> {
    (if BeforeCRDs(end) then {} else Installed(o, e))
    + (if Applies(end) then Keys(Target(false, e)) - (e.applyFaults - e.applyLanded) else {})
    + (if Checks(end) || (end.HookFailed? && e.customResource) then ResourceOf(o) else {})
  }

  function DeletedAfter(end: Ending, cfg: Config, o: Object, e: Env): set<ObjectKey> {
    if end.ResourceRemains? && e.customResource then ResourceOf(o)
    else if end.PruningFailed? || end.PruningPending? then Excess(cfg, o, e) - e.deleteFaults
    else if end.PrerequisitesFailed? || end.PrerequisitesPending? then Definitions(e) - e.deleteFaults
    else {}
  }

  function ClusterOf(before: Cluster, created: set<ObjectKey>, deleted: set<ObjectKey>): Cluster {
    map k | k in before.Keys + created :: if k in deleted then Terminating else if k in before then before[k] else Live
  }

  function ClusterAfter(end: Ending, cfg: Config, w: World, o: Object, e: Env): Cluster {
    ClusterOf(w.cluster, CreatedAfter(end, o, e), DeletedAfter(end, cfg, o, e))
  }

  /** The object is there with those finalizers, unless the last one of an object that is being deleted has just gone. */
  ghost predicate StoredIs(after: Option<Object>, o: Object, finalizers: set<Finalizer>) {
    if o.deleting && finalizers == {} && finalizers != o.finalizers then
      after == None
    else
      && after.Some?
      && after.value == o.(status := after.value.status, finalizers := finalizers, version := after.value.version)
  }

  /** A round that ends so: its result, the persisted object and the cluster. */
  ghost predicate Told(cfg: Config, w: World, o: Object, e: Env, end: Ending, r: Round) {
    && r.result == ResultOf(end)
    && r.world.cluster == ClusterAfter(end, cfg, w, o, e)
    && StoredIs(r.world.stored, o, FinalizersAfter(end, o, e))
    && (r.world.stored.Some? ==>
          var s := r.world.stored.value.status;
          if Patches(end) && e.write then StatusIs(s, end, o, e) else s == o.status)
  }

  // ---------------------------------------------------------------- stage by stage

  /** The world before the status is patched. */
  ghost predicate Stands(cfg: Config, w: World, o: Object, e: Env, end: Ending, world: World) {
    && world.cluster == ClusterAfter(end, cfg, w, o, e)
    && StoredIs(world.stored, o, FinalizersAfter(end, o, e))
    && (world.stored.Some? ==> world.stored.value.status == o.status)
  }

  lemma PatchIsTold(cfg: Config, w: World, o: Object, e: Env, end: Ending, c: Ctx)
    requires Patches(end) && Stands(cfg, w, o, e, end, c.world) && StatusIs(c.mem.status, end, o, e)
    ensures Told(cfg, w, o, e, end, WriteStatus(c, e))
  {
  }

  lemma NothingDeleted(before: Cluster, created: set<ObjectKey>)
    ensures ClusterOf(before, {}, {}) == before
    ensures ClusterOf(before, created, {}) == AfterCreates(before, created)
    ensures AfterCreates(before, created - before.Keys) == AfterCreates(before, created)
  {
  }

  /** The conditions in the working copy once the first two are registered. */
  function Registered(o: Object): Object {
    o.(status := o.status.(conditions := Register(Register(o.status.conditions, Resources), Installation)))
  }

  // ---------------------------------------------------------------- the first steps

  lemma UnreadIsTold(cfg: Config, w: World, o: Object, e: Env)
    requires w.stored == Some(o)
    ensures Told(cfg, w, o, e, Unread, Round(w, [], Ignored))
  {
    NothingDeleted(w.cluster, {});
  }

  lemma NoticedIsTold(cfg: Config, w: World, o: Object, e: Env, c: Ctx)
    requires w.stored == Some(o) && c == Ctx(o, w, []) && o.deleting && o.status.state != StateDeleting
    ensures Initialize(c).Stop? && Told(cfg, w, o, e, DeletionNoticed, WriteStatus(Initialize(c).ctx, e))
  {
    NothingDeleted(w.cluster, {});
    PatchIsTold(cfg, w, o, e, DeletionNoticed, c.SetState(StateDeleting));
  }

  lemma RegisteredConditions(o: Object, end: Ending, e: Env)
    requires end.Started? || end.Unresolved?
    ensures ConditionsAre(Registered(o).status.conditions, end, o, e)
  {
  }

  lemma StartedIsTold(cfg: Config, w: World, o: Object, e: Env, c: Ctx)
    requires w.stored == Some(o) && c == Ctx(o, w, []) && !o.deleting && o.status.state == StateUnset
    ensures Initialize(c).Stop? && Told(cfg, w, o, e, Started, WriteStatus(Initialize(c).ctx, e))
  {
    NothingDeleted(w.cluster, {});
    RegisteredConditions(o, Started, e);
    PatchIsTold(cfg, w, o, e, Started, Ctx(Registered(o), w, []).SetState(StateProcessing));
  }

  lemma MissingIsTold(cfg: Config, w: World, o: Object, e: Env)
    requires w.stored == Some(o) && !o.deleting
    ensures Told(cfg, w, o, e, FinalizerMissing, AddOwnFinalizer(Ctx(Registered(o), w, []), e))
  {
    NothingDeleted(w.cluster, {});
    assert o.finalizers + o.finalizers + {Own} == o.finalizers + {Own};
  }

  // ---------------------------------------------------------------- the definitions

  /** The cluster once the definitions were dealt with. */
  function Equipped(w: World, o: Object, e: Env): World {
    w.(cluster := ClusterOf(w.cluster, Installed(o, e), {}))
  }

  lemma EquippedStands(cfg: Config, w: World, o: Object, e: Env, end: Ending)
    requires w.stored == Some(o)
    requires end.CRDsFailed? || end.CRDsPending? || end.RenderingFailed? || end.ReadingBackFailed?
    ensures Stands(cfg, w, o, e, end, Equipped(w, o, e))
  {
    NothingGoes(end, cfg, o, e);
    assert CreatedAfter(end, o, e) == Installed(o, e) && FinalizersAfter(end, o, e) == o.finalizers;
  }

  lemma NothingGoes(end: Ending, cfg: Config, o: Object, e: Env)
    requires BeforePruning(end) || Applies(end)
    ensures DeletedAfter(end, cfg, o, e) == {}
  {
  }

  /** The working copy with its first conditions and a verdict on the definitions. */
  ghost predicate Judged(mem: Object, o: Object, crds: Option<bool>) {
    && mem == o.(status := o.status.(conditions := mem.status.conditions))
    && var c, r := mem.status.conditions, Registered(o).status.conditions;
    && Value(c, Resources) == Value(r, Resources) && Value(c, Installation) == Value(r, Installation) && Value(c, HelmCRDs) == crds
  }

  lemma JudgedConditions(mem: Object, o: Object, e: Env, end: Ending)
    requires Judged(mem, o, ConditionAfter(end, o, e, HelmCRDs)) && BeforePruning(end) && !end.DeletionNoticed?
    ensures ConditionsAre(mem.status.conditions, end, o, e)
  {
  }

  lemma CreatingEquips(w: World, o: Object, e: Env)
    requires e.chart.Chart? && Consults(o, e)
    ensures CreateCRDs(Ctx(Registered(o), w, []), e.chart.crds, e.crdFaults).world == Equipped(w, o, e)
  {
    NothingDeleted(w.cluster, e.chart.crds - e.crdFaults);
    assert e.chart.crds - e.crdFaults - w.cluster.Keys == (e.chart.crds - e.crdFaults) - w.cluster.Keys;
  }

  /** What `EnsurePrerequisites` comes to. */
  lemma EnsuringIsTold(w: World, o: Object, e: Env)
    ensures var p := EnsurePrerequisites(Ctx(Registered(o), w, []), e);
            e.spec == Some(Helm) ==>
              && p.ctx.world == Equipped(w, o, e)
              && (p.Go? <==> !Consults(o, e) || CRDsPass(e))
              && (if !Consults(o, e) then p.ctx.mem == Registered(o)
                  else if CRDsPass(e) then Judged(p.ctx.mem, o, Some(true))
                  else if CRDsWait(e) then Judged(p.ctx.mem, o, Some(false))
                  else p.ctx.mem.status.state == StateError
                       && Judged(p.ctx.mem.(status := p.ctx.mem.status.(state := o.status.state)), o, Some(false)))
  {
    if e.spec == Some(Helm) {
      if !Consults(o, e) || !e.chart.Chart? {
        NothingDeleted(w.cluster, {});
      } else {
        CreatingEquips(w, o, e);
      }
    }
  }

  /** The endings at which preparation stops. */
  predicate StopsPreparing(end: Ending) {
    end.Unresolved? || end.CRDsUnregistered? || end.CRDsPending? || end.CRDsFailed?
  }

  lemma UnresolvedIsTold(cfg: Config, w: World, o: Object, e: Env, c: Ctx)
    requires w.stored == Some(o) && c == Ctx(Registered(o), w, [])
    ensures Told(cfg, w, o, e, Unresolved, WriteStatus(c.SetState(StateError), e))
  {
    NothingDeleted(w.cluster, {});
    RegisteredConditions(o, Unresolved, e);
    PatchIsTold(cfg, w, o, e, Unresolved, c.SetState(StateError));
  }

  lemma UnregisteredIsTold(cfg: Config, w: World, o: Object, e: Env, c: Ctx)
    requires w.stored == Some(o) && c == Ctx(Registered(o), w, [])
    ensures Told(cfg, w, o, e, CRDsUnregistered, WriteStatus(CRDsAre(c, false), e))
  {
    NothingDeleted(w.cluster, {});
    JudgedConditions(CRDsAre(c, false).mem, o, e, CRDsUnregistered);
    PatchIsTold(cfg, w, o, e, CRDsUnregistered, CRDsAre(c, false));
  }

  lemma RefusedIsTold(cfg: Config, w: World, o: Object, e: Env)
    requires w.stored == Some(o) && e.spec == Some(Helm) && Consults(o, e) && !CRDsPass(e)
    ensures Told(cfg, w, o, e, if CRDsWait(e) then CRDsPending else CRDsFailed,
                 WriteStatus(EnsurePrerequisites(Ctx(Registered(o), w, []), e).ctx, e))
  {
    var end := if CRDsWait(e) then CRDsPending else CRDsFailed;
    var c := EnsurePrerequisites(Ctx(Registered(o), w, []), e).ctx;
    EnsuringIsTold(w, o, e);
    EquippedStands(cfg, w, o, e, end);
    JudgedConditions(c.mem.(status := c.mem.status.(state := o.status.state)), o, e, end);
    PatchIsTold(cfg, w, o, e, end, c);
  }

  /** What a round has when it comes to rendering. */
  ghost predicate Resolved(c: Ctx, w: World, o: Object, e: Env) {
    c.world == Equipped(w, o, e) && Judged(c.mem, o, ConditionAfter(ReadingBackFailed, o, e, HelmCRDs))
  }

  lemma PreparationIsTold(cfg: Config, w: World, o: Object, e: Env)
    requires w.stored == Some(o)
    ensures var p, end := Prepare(Ctx(Registered(o), w, []), e), EndOfPreparation(cfg, w, o, e);
            && (p.Stop? <==> StopsPreparing(end))
            && (p.Stop? ==> Told(cfg, w, o, e, end, WriteStatus(p.ctx, e)))
            && (p.Go? ==> Resolved(p.ctx, w, o, e))
  {
    var c := Ctx(Registered(o), w, []);
    if e.spec.None? || !e.client {
      UnresolvedIsTold(cfg, w, o, e, c);
    } else if e.spec == Some(Helm) && HelmCRDs !in o.status.conditions {
      UnregisteredIsTold(cfg, w, o, e, c);
    } else if e.spec == Some(Helm) {
      EnsuringIsTold(w, o, e);
      if Consults(o, e) && !CRDsPass(e) {
        RefusedIsTold(cfg, w, o, e);
      }
      assert Prepare(c, e) == EnsurePrerequisites(c, e);
    } else {
      NothingDeleted(w.cluster, {});
    }
  }

  // ---------------------------------------------------------------- rendering

  /** What a round has when it comes to pruning. */
  ghost predicate Enters(c: Ctx, w: World, o: Object, e: Env) {
    && w.stored == Some(o) && c.world == Equipped(w, o, e)
    && c.mem == o.(status := o.status.(conditions := c.mem.status.conditions))
    && ConditionsAre(c.mem.status.conditions, PruningFailed, o, e)
  }

  lemma UnrenderedIsTold(cfg: Config, c: Ctx, w: World, o: Object, e: Env, end: Ending)
    requires w.stored == Some(o) && Resolved(c, w, o, e)
    requires end == if !o.deleting && e.rendering.RenderFailed? then RenderingFailed else ReadingBackFailed
    requires RenderResources(c, e).Stop?
    ensures Told(cfg, w, o, e, end, WriteStatus(RenderResources(c, e).ctx, e))
  {
    var c' := RenderResources(c, e).ctx;
    EquippedStands(cfg, w, o, e, end);
    JudgedConditions(c'.mem.(status := c'.mem.status.(state := o.status.state)), o, e, end);
    PatchIsTold(cfg, w, o, e, end, c');
  }

  lemma RenderingIsTold(cfg: Config, c: Ctx, w: World, o: Object, e: Env)
    requires w.stored == Some(o) && Resolved(c, w, o, e)
    ensures var p := RenderResources(c, e);
            var end := if !o.deleting && e.rendering.RenderFailed? then RenderingFailed else ReadingBackFailed;
            && (p.Stop? <==> (!o.deleting && e.rendering.RenderFailed?) || !e.current)
            && (p.Stop? ==> Told(cfg, w, o, e, end, WriteStatus(p.ctx, e)))
            && (p.Go? ==> Enters(p.ctx, w, o, e))
  {
    var end := if !o.deleting && e.rendering.RenderFailed? then RenderingFailed else ReadingBackFailed;
    if RenderResources(c, e).Stop? {
      UnrenderedIsTold(cfg, c, w, o, e, end);
    }
  }

  // ---------------------------------------------------------------- pruning

  lemma EquippedKeys(w: World, o: Object, e: Env)
    ensures Equipped(w, o, e).cluster.Keys == Present(w, o, e)
  {
  }

  /** What a cleanup comes to. */
  lemma CleanupIsTold(c: Ctx, e: Env, keys: set<ObjectKey>)
    ensures var p, present := Cleanup(c, e, keys), c.world.cluster.Keys;
            && (p.Broken? <==> keys * e.deleteFaults != {})
            && (p.Waiting? <==> keys * e.deleteFaults == {} && keys * present != {})
            && p.ctx.world == c.world.(cluster := ClusterOf(c.world.cluster, {}, keys - e.deleteFaults))
            && (p.Clean? ==> p.ctx.world == c.world)
            && p.ctx.mem == (if p.Broken? then c.SetState(StateError).mem else c.mem)
  {
    VerdictIsTold(c.world.cluster, keys, e.deleteFaults);
    if keys * e.deleteFaults == {} && keys * c.world.cluster.Keys == {} {
      assert forall k | k in c.world.cluster :: k !in keys by {
        assert forall k | k in c.world.cluster :: k !in keys * c.world.cluster.Keys;
      }
    }
  }

  lemma VerdictIsTold(cluster: Cluster, keys: set<ObjectKey>, faults: set<ObjectKey>)
    ensures CleanupVerdict(Outcomes(cluster, keys, faults)) ==
            if keys * faults != {} then Failed else if keys * cluster.Keys != {} then NotReady else Passed
  {
    var outcomes := Outcomes(cluster, keys, faults);
    assert forall k | k in keys :: k in outcomes.Keys && outcomes[k] in outcomes.Values;
    if keys * faults != {} {
      var k :| k in keys * faults;
      assert outcomes[k] == Refused;
    } else {
      assert forall k | k in keys :: k !in keys * faults;
      if keys * cluster.Keys != {} {
        var k :| k in keys * cluster.Keys;
        assert outcomes[k] == Accepted;
      } else {
        assert forall k | k in keys :: k !in keys * cluster.Keys;
      }
    }
  }

  /** Two clusters after each other. */
  lemma ClusterTwice(before: Cluster, created: set<ObjectKey>, deleted: set<ObjectKey>)
    ensures ClusterOf(ClusterOf(before, created, {}), {}, deleted) == ClusterOf(before, created, deleted)
  {
  }

  /** A round that stops at a cleanup. */
  lemma PruningStops(cfg: Config, c: Ctx, w: World, o: Object, e: Env, end: Ending, stored: Option<Object>, deleted: set<ObjectKey>)
    requires Enters(c, w, o, e) && StoredIs(stored, o, FinalizersAfter(end, o, e)) && deleted == DeletedAfter(end, cfg, o, e)
    requires stored.Some? ==> stored.value.status == o.status
    requires !BeforePruning(end) && !Applies(end)
    ensures Stands(cfg, w, o, e, end, World(stored, ClusterOf(c.world.cluster, {}, deleted)))
  {
    assert CreatedAfter(end, o, e) == Installed(o, e);
    ClusterTwice(w.cluster, Installed(o, e), deleted);
  }

  lemma ConditionsStay(c: Conditions, o: Object, e: Env, end: Ending)
    requires ConditionsAre(c, PruningFailed, o, e) && !BeforePruning(end) && !end.JustReady?
    ensures ConditionsAre(c, end, o, e)
  {
  }

  /** A round that breaks off or waits at a cleanup. */
  lemma StopIsTold(cfg: Config, c: Ctx, w: World, o: Object, e: Env, end: Ending, p: Pruned, target: seq<Resource>)
    requires Enters(c, w, o, e) && Stands(cfg, w, o, e, end, p.ctx.world)
    requires match p {
               case Broken(c') => (end.PruningFailed? || end.PrerequisitesFailed?) && c'.mem == c.SetState(StateError).mem
               case Waiting(_) => end.PruningPending? || end.PrerequisitesPending?
               case Clean(_) => false
             }
    ensures Told(cfg, w, o, e, end, AfterPrune(p, e, target))
  {
    if p.Broken? {
      ConditionsStay(c.mem.status.conditions, o, e, end);
      PatchIsTold(cfg, w, o, e, end, p.ctx);
    }
  }

  // ---------------------------------------------------------------- a sync

  lemma CreatedTwice(before: Cluster, a: set<ObjectKey>, b: set<ObjectKey>)
    ensures AfterCreates(ClusterOf(before, a, {}), b) == ClusterOf(before, a + b, {})
    ensures AfterCreates(ClusterOf(before, a, {}), b - ClusterOf(before, a, {}).Keys) == ClusterOf(before, a + b, {})
  {
  }

  /** A round that gets to applying leaves the world so. */
  function Synced(w: World, o: Object, e: Env, end: Ending): Cluster {
    ClusterOf(w.cluster, CreatedAfter(end, o, e), {})
  }

  lemma AppliedIsTold(c: Ctx, w: World, o: Object, e: Env, end: Ending)
    requires Enters(c, w, o, e) && !o.deleting && (end.ApplyingFailed? || end.ListChanged?)
    ensures AfterCreates(c.world.cluster, Landed(e, Keys(Target(false, e)))) == Synced(w, o, e, end)
  {
    var keys := Keys(Target(false, e));
    CreatedTwice(w.cluster, Installed(o, e), Landed(e, keys));
    assert Landed(e, keys) == keys - (e.applyFaults - e.applyLanded);
    assert CreatedAfter(end, o, e) == Installed(o, e) + Landed(e, keys);
  }

  /** A sync that stops before its hook. */
  lemma UnsyncedIsTold(cfg: Config, c: Ctx, w: World, o: Object, e: Env, end: Ending, stopped: Ctx)
    requires Enters(c, w, o, e) && !o.deleting && (end.ApplyingFailed? || end.ListChanged?)
    requires stopped.world == World(Some(o), Synced(w, o, e, end))
    requires stopped.mem.status == Status(StateAfter(end, o), c.mem.status.conditions, TrackedAfter(end, o, e))
    ensures Told(cfg, w, o, e, end, WriteStatus(stopped, e))
  {
    ConditionsStay(c.mem.status.conditions, o, e, end);
    PatchIsTold(cfg, w, o, e, end, stopped);
  }

  /** What the hook comes to. */
  lemma PostRunIsTold(c: Ctx, o: Object, e: Env)
    requires c.world.stored == Some(o) && !o.deleting && c.mem == o.(status := c.mem.status)
    ensures var p := PostRun(c, e);
            && (p.Go? <==> L.HookPasses(o, e))
            && p.ctx.mem == c.mem
            && p.ctx.world.cluster ==
               (if L.HookPasses(o, e) || e.customResource then AfterCreates(c.world.cluster, ResourceOf(o)) else c.world.cluster)
            && StoredIs(p.ctx.world.stored, o,
                        if p.Go? && o.resource.Some? then o.finalizers + {OfCustomResource} else o.finalizers)
            && p.ctx.world.stored.value.status == o.status
  {
    NothingDeleted(c.world.cluster, ResourceOf(o));
    assert AfterCreates(c.world.cluster, {}) == c.world.cluster;
    assert o.finalizers + o.finalizers + {OfCustomResource} == o.finalizers + {OfCustomResource};
  }

  lemma CreatedAtHook(end: Ending, o: Object, e: Env)
    requires (end.HookFailed? || Checks(end)) && Keys(Target(false, e)) * e.applyFaults == {}
    ensures CreatedAfter(end, o, e) ==
            Installed(o, e) + Keys(Target(false, e)) + if Checks(end) || e.customResource then ResourceOf(o) else {}
  {
    var keys := Keys(Target(false, e));
    assert forall k | k in keys :: k !in keys * e.applyFaults;
    assert keys - (e.applyFaults - e.applyLanded) == keys;
  }

  lemma HookCluster(w: World, o: Object, e: Env, end: Ending)
    requires (end.HookFailed? || Checks(end)) && Keys(Target(false, e)) * e.applyFaults == {}
    ensures var applied := AfterCreates(Equipped(w, o, e).cluster, Keys(Target(false, e)));
            Synced(w, o, e, end) == if Checks(end) || e.customResource then AfterCreates(applied, ResourceOf(o)) else applied
  {
    var keys := Keys(Target(false, e));
    CreatedTwice(w.cluster, Installed(o, e), keys);
    CreatedTwice(w.cluster, Installed(o, e) + keys, ResourceOf(o));
    CreatedAtHook(end, o, e);
  }

  lemma HookIsTold(cfg: Config, c: Ctx, w: World, o: Object, e: Env, end: Ending, world: World)
    requires Enters(c, w, o, e) && !o.deleting && (end.HookFailed? || Checks(end)) && world.cluster == Synced(w, o, e, end)
    requires StoredIs(world.stored, o, if Checks(end) && o.resource.Some? then o.finalizers + {OfCustomResource} else o.finalizers)
    requires world.stored.value.status == o.status
    ensures Stands(cfg, w, o, e, end, world)
  {
    NothingGoes(end, cfg, o, e);
    assert FinalizersAfter(end, o, e)
        == if Checks(end) && o.resource.Some? then o.finalizers + {OfCustomResource} else o.finalizers;
  }

  /** The end of a sync that gets to the readiness check. */
  lemma CheckIsTold(cfg: Config, c: Ctx, w: World, o: Object, e: Env, end: Ending)
    requires Stands(cfg, w, o, e, end, c.world) && Checks(end)
    requires c.mem == o.(status := o.status.(conditions := c.mem.status.conditions))
    requires ConditionsAre(c.mem.status.conditions, PruningFailed, o, e)
    requires end == match e.check {
               case NotReady => NotYetReady
               case Failed => CheckFailed
               case Passed =>
                 if o.status.state == StateReady && Value(o.status.conditions, Installation) == Some(true) then AtRest
                 else JustReady
             }
    ensures Told(cfg, w, o, e, end, Conclude(CheckReadiness(c, e), e))
  {
    var p := CheckReadiness(c, e);
    if end.JustReady? {
      assert ConditionsAre(c.mem.status.conditions[Installation := true], end, o, e);
    } else {
      ConditionsStay(c.mem.status.conditions, o, e, end);
    }
    if p.Stop? {
      PatchIsTold(cfg, w, o, e, end, p.ctx);
    }
  }

  lemma HookedIsTold(cfg: Config, c: Ctx, w: World, o: Object, e: Env, applied: Ctx)
    requires Enters(c, w, o, e) && !o.deleting && applied.mem == c.mem && applied.world.stored == c.world.stored
    requires Keys(Target(false, e)) * e.applyFaults == {} && DiffOf(o.status.synced, Target(false, e)) == []
    requires applied.world.cluster == AfterCreates(c.world.cluster, Keys(Target(false, e)))
    ensures Told(cfg, w, o, e, EndOfSync(o, e), Conclude(FinishSync(applied, e, Target(false, e)), e))
  {
    var end, p := EndOfSync(o, e), PostRun(applied, e);
    PostRunIsTold(applied, o, e);
    HookCluster(w, o, e, end);
    HookIsTold(cfg, c, w, o, e, end, p.ctx.world);
    match p
    case Stop(c') =>
      ConditionsStay(c.mem.status.conditions, o, e, end);
      PatchIsTold(cfg, w, o, e, end, c'.SetStatus(Status(StateError, c.mem.status.conditions, Target(false, e))));
    case Go(c') => CheckIsTold(cfg, c', w, o, e, end);
  }

  lemma SyncIsTold(cfg: Config, c: Ctx, w: World, o: Object, e: Env)
    requires Enters(c, w, o, e) && !o.deleting
    ensures Told(cfg, w, o, e, EndOfSync(o, e), Conclude(SyncResources(c, e, Target(false, e)), e))
  {
    var target := Target(false, e);
    if Keys(target) * e.applyFaults != {} || DiffOf(o.status.synced, target) != [] {
      var end := EndOfSync(o, e);
      AppliedIsTold(c, w, o, e, end);
      UnsyncedIsTold(cfg, c, w, o, e, end, SyncResources(c, e, target).ctx);
    } else {
      var landed := Landed(e, Keys(target));
      assert landed == Keys(target);
      var applied := c.SetCluster(AfterCreates(c.world.cluster, landed)).Log(Applied(target, landed, Keys(target) * e.applyFaults));
      HookedIsTold(cfg, c, w, o, e, applied);
      assert SyncResources(c, e, target) == FinishSync(applied, e, target);
    }
  }

  // ---------------------------------------------------------------- a deletion

  /** The object once the hook of a deletion got through; a change shows in the version. */
  ghost predicate Handed(stored: Option<Object>, o: Object) {
    && StoredIs(stored, o, Kept(o))
    && (stored.Some? ==> stored.value.status == o.status)
    && (if Kept(o) == o.finalizers then stored == Some(o) else stored.Some? ==> stored.value.version != o.version)
  }

  /** What the hook of a deletion comes to. */
  lemma PreDeleteIsTold(c: Ctx, o: Object, e: Env)
    requires c.world.stored == Some(o) && o.deleting && c.mem.resource == o.resource
    ensures var p := PreDelete(c, e);
            && (p.Go? <==> ResourceGone(o, e, c.world.cluster.Keys))
            && p.ctx.mem == c.mem
            && (p.Go? ==> p.ctx.world.cluster == c.world.cluster && Handed(p.ctx.world.stored, o))
            && (p.Stop? ==>
                  p.ctx.world == World(Some(o), ClusterOf(c.world.cluster, {}, if e.customResource then ResourceOf(o) else {})))
  {
    NothingDeleted(c.world.cluster, {});
    if o.resource.Some? {
      var k := o.resource.value;
      assert AfterDeletes(c.world.cluster, {k}, {}) == ClusterOf(c.world.cluster, {}, {k});
      if k !in c.world.cluster {
        assert ClusterOf(c.world.cluster, {}, {k}) == c.world.cluster;
      }
      assert OfCustomResource !in o.finalizers ==> Kept(o) == o.finalizers;
    }
  }

  lemma ExcessOfDeletion(cfg: Config, o: Object, e: Env)
    requires o.deleting
    ensures Excess(cfg, o, e) == Keys(o.status.synced)
  {
  }

  lemma RemovalIsTold(c: Ctx, e: Env)
    ensures var p, keys := RemovePrerequisites(c, e), if e.spec == Some(Helm) then Definitions(e) else {};
            && (p.Broken? <==> keys * e.deleteFaults != {})
            && (p.Waiting? <==> keys * e.deleteFaults == {} && keys * c.world.cluster.Keys != {})
            && p.ctx.world == c.world.(cluster := ClusterOf(c.world.cluster, {}, keys - e.deleteFaults))
            && (p.Clean? ==> p.ctx.world == c.world)
            && p.ctx.mem == (if p.Broken? then c.SetState(StateError).mem else c.mem)
  {
    NothingDeleted(c.world.cluster, {});
    if e.spec == Some(Helm) && e.chart.Chart? {
      VerdictIsTold(c.world.cluster, e.chart.crds, e.deleteFaults);
      assert AfterDeletes(c.world.cluster, e.chart.crds, e.deleteFaults)
          == ClusterOf(c.world.cluster, {}, e.chart.crds - e.deleteFaults);
      assert e.chart.crds * c.world.cluster.Keys == {} ==>
               forall k | k in c.world.cluster :: k !in e.chart.crds * c.world.cluster.Keys;
    }
  }

  /** A deletion that stops at a cleanup, for whichever of the two. */
  lemma CleaningStops(cfg: Config, c: Ctx, w: World, o: Object, e: Env, end: Ending, p: Pruned, stored: Option<Object>)
    requires Enters(c, w, o, e) && o.deleting && Handed(stored, o) && !p.Clean?
    requires end.PruningFailed? || end.PruningPending? || end.PrerequisitesFailed? || end.PrerequisitesPending?
    requires p.Broken? <==> end.PruningFailed? || end.PrerequisitesFailed?
    requires p.ctx.world == World(stored, ClusterOf(c.world.cluster, {}, DeletedAfter(end, cfg, o, e)))
    requires p.ctx.mem == if p.Broken? then c.SetState(StateError).mem else c.mem
    ensures Told(cfg, w, o, e, end, AfterPrune(p, e, []))
  {
    assert FinalizersAfter(end, o, e) == Kept(o);
    PruningStops(cfg, c, w, o, e, end, stored, DeletedAfter(end, cfg, o, e));
    StopIsTold(cfg, c, w, o, e, end, p, []);
  }

  lemma CleanStands(cfg: Config, c: Ctx, w: World, o: Object, e: Env, end: Ending, stored: Option<Object>,
                    finalizers: set<Finalizer>)
    requires Enters(c, w, o, e) && (end.Releasing? || end.OthersRemain?) && finalizers == FinalizersAfter(end, o, e)
    requires StoredIs(stored, o, finalizers) && (stored.Some? ==> stored.value.status == o.status)
    ensures Stands(cfg, w, o, e, end, World(stored, c.world.cluster))
  {
    NothingDeleted(c.world.cluster, {});
    PruningStops(cfg, c, w, o, e, end, stored, {});
  }

  lemma FinishIsTold(cfg: Config, c: Ctx, w: World, o: Object, e: Env, done: Ctx)
    requires Enters(c, w, o, e) && o.deleting && o.status.state == StateDeleting
    requires done.mem == c.mem && done.world.cluster == c.world.cluster && Handed(done.world.stored, o)
    ensures Told(cfg, w, o, e, if Own in o.finalizers then Releasing else OthersRemain, FinishDeletion(done, e))
  {
    var end, r := if Own in o.finalizers then Releasing else OthersRemain, FinishDeletion(done, e);
    if end.Releasing? {
      assert Own in Kept(o);
      CleanStands(cfg, c, w, o, e, end, r.world.stored, FinalizersAfter(end, o, e));
    } else {
      CleanStands(cfg, c, w, o, e, end, done.world.stored, Kept(o));
      ConditionsStay(c.mem.status.conditions, o, e, end);
      PatchIsTold(cfg, w, o, e, end, done.SetState(StateDeleting));
    }
  }

  lemma BlockedIsTold(cfg: Config, c: Ctx, w: World, o: Object, e: Env, stopped: Ctx)
    requires Enters(c, w, o, e) && o.deleting && stopped.mem == c.mem
    requires stopped.world == World(Some(o), ClusterOf(c.world.cluster, {}, if e.customResource then ResourceOf(o) else {}))
    ensures Told(cfg, w, o, e, ResourceRemains, WriteStatus(stopped, e))
  {
    var end := ResourceRemains;
    PruningStops(cfg, c, w, o, e, end, Some(o), DeletedAfter(end, cfg, o, e));
    ConditionsStay(c.mem.status.conditions, o, e, end);
    PatchIsTold(cfg, w, o, e, end, stopped);
  }

  /** From the cleanup of everything tracked to the end. */
  lemma CleanedIsTold(cfg: Config, c: Ctx, w: World, o: Object, e: Env, cleaned: Ctx)
    requires Enters(c, w, o, e) && o.deleting && o.status.state == StateDeleting
    requires cleaned.mem == c.mem && cleaned.world.cluster == c.world.cluster && Handed(cleaned.world.stored, o)
    requires ResourceGone(o, e, Present(w, o, e))
    requires Keys(o.status.synced) * e.deleteFaults == {} && Keys(o.status.synced) * Present(w, o, e) == {}
    ensures var p := if cfg.deletePrerequisites then RemovePrerequisites(cleaned, e) else Clean(cleaned);
            Told(cfg, w, o, e, EndOfDeletion(cfg, o, e, Present(w, o, e)), AfterPrune(p, e, []))
  {
    var end := EndOfDeletion(cfg, o, e, Present(w, o, e));
    EquippedKeys(w, o, e);
    if cfg.deletePrerequisites {
      var p := RemovePrerequisites(cleaned, e);
      RemovalIsTold(cleaned, e);
      if p.Clean? {
        FinishIsTold(cfg, c, w, o, e, p.ctx);
      } else {
        CleaningStops(cfg, c, w, o, e, end, p, cleaned.world.stored);
      }
    } else {
      FinishIsTold(cfg, c, w, o, e, cleaned);
    }
  }

  /** What is left of pruning in a deletion once the hook got through. */
  function RestOfPruning(cfg: Config, c: Ctx, e: Env, keys: set<ObjectKey>): Pruned {
    var p := Cleanup(c, e, keys);
    if p.Clean? && cfg.deletePrerequisites then RemovePrerequisites(p.ctx, e) else p
  }

  lemma UnblockedIsTold(cfg: Config, c: Ctx, w: World, o: Object, e: Env, c': Ctx)
    requires Enters(c, w, o, e) && o.deleting && o.status.state == StateDeleting && ResourceGone(o, e, Present(w, o, e))
    requires c'.mem == c.mem && c'.world.cluster == c.world.cluster && Handed(c'.world.stored, o)
    ensures Told(cfg, w, o, e, EndOfDeletion(cfg, o, e, Present(w, o, e)),
                 AfterPrune(RestOfPruning(cfg, c', e, Keys(o.status.synced)), e, []))
  {
    var p := Cleanup(c', e, Keys(o.status.synced));
    EquippedKeys(w, o, e);
    CleanupIsTold(c', e, Keys(o.status.synced));
    if p.Clean? {
      CleanedIsTold(cfg, c, w, o, e, p.ctx);
    } else {
      ExcessOfDeletion(cfg, o, e);
      CleaningStops(cfg, c, w, o, e, if p.Broken? then PruningFailed else PruningPending, p, c'.world.stored);
    }
  }

  lemma DeletionIsTold(cfg: Config, c: Ctx, w: World, o: Object, e: Env)
    requires Enters(c, w, o, e) && o.deleting && o.status.state == StateDeleting
    ensures Told(cfg, w, o, e, EndOfDeletion(cfg, o, e, Present(w, o, e)),
                 AfterPrune(PruneDiff(cfg, c, e, Keys(o.status.synced)), e, []))
  {
    EquippedKeys(w, o, e);
    PreDeleteIsTold(c, o, e);
    match PreDelete(c, e)
    case Stop(c') => BlockedIsTold(cfg, c, w, o, e, c');
    case Go(c') => UnblockedIsTold(cfg, c, w, o, e, c');
  }

  // ---------------------------------------------------------------- the whole round

  lemma ExcessStops(cfg: Config, c: Ctx, w: World, o: Object, e: Env, end: Ending, p: Pruned)
    requires Enters(c, w, o, e) && !o.deleting
    requires (p.Broken? && end.PruningFailed?) || (p.Waiting? && end.PruningPending?)
    requires p.ctx.world == World(Some(o), ClusterOf(c.world.cluster, {}, Excess(cfg, o, e) - e.deleteFaults))
    requires p.ctx.mem == if p.Broken? then c.SetState(StateError).mem else c.mem
    ensures Told(cfg, w, o, e, end, AfterPrune(p, e, Target(false, e)))
  {
    PruningStops(cfg, c, w, o, e, end, Some(o), Excess(cfg, o, e) - e.deleteFaults);
    StopIsTold(cfg, c, w, o, e, end, p, Target(false, e));
  }

  lemma PruningIsTold(cfg: Config, c: Ctx, w: World, o: Object, e: Env)
    requires Enters(c, w, o, e) && (o.deleting ==> o.status.state == StateDeleting)
    ensures Told(cfg, w, o, e, EndOfPruning(cfg, o, e, Present(w, o, e)),
                 AfterPrune(PruneDiff(cfg, c, e, Excess(cfg, o, e)), e, Target(o.deleting, e)))
  {
    var keys, end := Excess(cfg, o, e), EndOfPruning(cfg, o, e, Present(w, o, e));
    if o.deleting {
      ExcessOfDeletion(cfg, o, e);
      DeletionIsTold(cfg, c, w, o, e);
    } else {
      var p := Cleanup(c, e, keys);
      EquippedKeys(w, o, e);
      CleanupIsTold(c, e, keys);
      assert PruneDiff(cfg, c, e, keys) == p;
      if p.Clean? {
        SyncIsTold(cfg, p.ctx, w, o, e);
      } else {
        ExcessStops(cfg, c, w, o, e, end, p);
      }
    }
  }

  lemma PreparedIsTold(cfg: Config, w: World, o: Object, e: Env)
    requires w.stored == Some(o) && (o.deleting ==> o.status.state == StateDeleting)
    ensures Told(cfg, w, o, e, EndOfPreparation(cfg, w, o, e), Onwards(cfg, Prepare(Ctx(Registered(o), w, []), e), e))
  {
    PreparationIsTold(cfg, w, o, e);
    match Prepare(Ctx(Registered(o), w, []), e)
    case Stop(c) =>
    case Go(c) =>
      RenderingIsTold(cfg, c, w, o, e);
      match RenderResources(c, e)
      case Stop(c') =>
      case Go(c') => PruningIsTold(cfg, c', w, o, e);
  }

  /** The rest of a round after the first steps. */
  function Onwards(cfg: Config, p: Stage, e: Env): Round {
    match p
    case Stop(c) => WriteStatus(c, e)
    case Go(c) => AfterPrepare(cfg, c, e)
  }

  /** Every round ends as told: its result, the persisted object and the cluster are those that the answers determine. */
  lemma RoundIsTold(cfg: Config, w: World, e: Env)
    requires w.stored.Some?
    ensures Told(cfg, w, w.stored.value, e, EndingOf(cfg, w, e), Reconcile(cfg, w, e))
  {
    var o := w.stored.value;
    var c := Ctx(o, w, []);
    if !e.get || e.skip {
      UnreadIsTold(cfg, w, o, e);
    } else if o.deleting && o.status.state != StateDeleting {
      NoticedIsTold(cfg, w, o, e, c);
    } else if o.status.state == StateUnset {
      StartedIsTold(cfg, w, o, e, c);
    } else {
      assert Initialize(c) == Go(Ctx(Registered(o), w, []));
      if !o.deleting && Own !in o.finalizers {
        MissingIsTold(cfg, w, o, e);
      } else {
        PreparedIsTold(cfg, w, o, e);
      }
    }
  }
}

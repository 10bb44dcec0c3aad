/** One reconcile round as a function of the world and the environment's answers. Each function follows one function
    of the controller; `mem` is the copy of the object that the round works on, `world` what is persisted. */
module Protocol {
  import opened Identity
  import opened Model

  datatype Ctx = Ctx(mem: Object, world: World, log: seq<Event>) {
    function Status(): Status {
      mem.status
    }

    function SetStatus(s: Status): Ctx {
      this.(mem := mem.(status := s))
    }

    function SetState(s: State): Ctx {
      SetStatus(mem.status.(state := s))
    }

    function SetConditions(c: Conditions): Ctx {
      SetStatus(mem.status.(conditions := c))
    }

    function SetCluster(c: Cluster): Ctx {
      this.(world := world.(cluster := c))
    }

    function Store(o: Option<Object>): Ctx {
      this.(world := world.(stored := o))
    }

    function Log(e: Event): Ctx {
      this.(log := log + [e])
    }
  }

  /** A stage goes on, or stops with an error after which the status is persisted. */
  datatype Stage = Go(ctx: Ctx) | Stop(ctx: Ctx)

  /** Pruning additionally may have to wait, and then nothing is persisted. */
  datatype Pruned = Clean(ctx: Ctx) | Waiting(ctx: Ctx) | Broken(ctx: Ctx)

  datatype Round = Round(world: World, log: seq<Event>, result: Result)

  // ---------------------------------------------------------------- calls against the two API servers

  /** An object that is being deleted goes away with its last finalizer. */
  function WithFinalizers(o: Object, f: set<Finalizer>): Option<Object> {
    if o.deleting && f == {} then None else Some(o.(finalizers := f, version := o.version + 1))
  }

  function OutcomeOf(c: Cluster, faults: set<ObjectKey>, k: ObjectKey): DeleteOutcome {
    if k in faults then Refused else if k in c then Accepted else NotFound
  }

  function Outcomes(c: Cluster, keys: set<ObjectKey>, faults: set<ObjectKey>): map<ObjectKey, DeleteOutcome> {
    map k | k in keys :: OutcomeOf(c, faults, k)
  }

  /** An accepted delete leaves its object terminating; the environment takes it away later. */
  function AfterDeletes(c: Cluster, keys: set<ObjectKey>, faults: set<ObjectKey>): Cluster {
    map k | k in c :: if k in keys && k !in faults then Terminating else c[k]
  }

  /** Creating or applying brings absent objects to life and cannot revive a terminating one. */
  function AfterCreates(c: Cluster, keys: set<ObjectKey>): Cluster {
    map k | k in c.Keys + keys :: if k in c then c[k] else Live
  }

  /** What the cleanup of `keys` reports: Failed when any delete was refused, NotReady when any object was
      still there, Passed when all were gone. */
  function CleanupVerdict(outcomes: map<ObjectKey, DeleteOutcome>): Verdict {
    if Refused in outcomes.Values then Failed else if Accepted in outcomes.Values then NotReady else Passed
  }

  // ---------------------------------------------------------------- stages

  function Initialize(c: Ctx): Stage {
    if c.mem.deleting && c.mem.status.state != StateDeleting then
      Stop(c.SetState(StateDeleting))
    else
      var conditions := Register(Register(c.mem.status.conditions, Resources), Installation);
      if c.mem.status.state == StateUnset then
        Stop(c.SetConditions(conditions).SetState(StateProcessing))
      else
        Go(c.SetConditions(conditions))
  }

  function CRDsAre(c: Ctx, ready: bool): Ctx {
    c.SetConditions(c.mem.status.conditions[HelmCRDs := ready])
  }

  /** All missing CRDs are created, those whose creation is refused apart. */
  function CreateCRDs(c: Ctx, crds: set<ObjectKey>, faults: set<ObjectKey>): Ctx {
    var created := crds - faults - c.world.cluster.Keys;
    c.SetCluster(AfterCreates(c.world.cluster, created)).Log(PrerequisitesInstalled(created))
  }

  function JudgeCRDs(c: Ctx, check: Verdict): Stage {
    match check
    case Failed => Stop(CRDsAre(c, false).SetState(StateError))
    case NotReady => Stop(CRDsAre(c, false))
    case Passed => Go(CRDsAre(c, true))
  }

  function EnsurePrerequisites(c: Ctx, e: Env): Stage {
    if !c.mem.deleting && IsTrue(c.mem.status.conditions, HelmCRDs) then
      Go(c)
    else if !e.chart.Chart? then
      Stop(CRDsAre(c, false).SetState(StateError))
    else
      var check := if e.chart.crds * e.crdFaults != {} then Failed else e.crdCheck;
      JudgeCRDs(CreateCRDs(c, e.chart.crds, e.crdFaults), check)
  }

  function InitializeRenderer(c: Ctx, mode: RenderMode, e: Env): Stage {
    if mode != Helm then
      Go(c)
    else if HelmCRDs !in c.mem.status.conditions then
      Stop(CRDsAre(c, false))
    else
      EnsurePrerequisites(c, e)
  }

  /** Spec resolution, target client and renderer. */
  function Prepare(c: Ctx, e: Env): Stage {
    if e.spec.None? || !e.client then
      Stop(c.SetState(StateError))
    else
      InitializeRenderer(c, e.spec.value, e)
  }

  /** While the object is being deleted there is no target. */
  function Target(deleting: bool, e: Env): seq<Resource> {
    if deleting || !e.rendering.Rendered? then [] else e.rendering.target
  }

  function RenderResources(c: Ctx, e: Env): Stage {
    if !c.mem.deleting && e.rendering.RenderFailed? then
      var reset := e.rendering.resetsCRDs && e.spec == Some(Helm);
      Stop((if reset then CRDsAre(c, false) else c).SetState(StateError))
    else if !e.current then
      Stop(c.SetState(StateError))
    else
      Go(c.SetConditions(c.mem.status.conditions[Resources := true]))
  }

  /** The tracked resources that the target does not match any more. */
  function Dropped(m: Matcher, current: seq<Resource>, target: seq<Resource>): set<ObjectKey> {
    set r | r in current && r.MatchKey(m) !in MatchKeys(m, target) :: r.Key()
  }

  /** The hook that deletes the custom resource, and then takes its finalizer away through a second copy. */
  function PreDelete(c: Ctx, e: Env): Stage {
    match c.mem.resource
    case None => Go(c)
    case Some(k) =>
      if !e.customResource then
        Stop(c.Log(CustomResourceDeleted(k, Refused)))
      else if k in c.world.cluster then
        Stop(c.SetCluster(AfterDeletes(c.world.cluster, {k}, {})).Log(CustomResourceDeleted(k, Accepted)))
      else
        var c' := c.Log(CustomResourceDeleted(k, NotFound));
        if c'.world.stored.None? then
          Go(c')
        else if !e.hookRead then
          Stop(c')
        else
          var obj := c'.world.stored.value;
          if OfCustomResource !in obj.finalizers then
            Go(c')
          else if !e.hookWrite then
            Stop(c')
          else
            Go(c'.Store(WithFinalizers(obj, obj.finalizers - {OfCustomResource}))
                 .Log(CustomResourceFinalizerDropped))
  }

  function Cleanup(c: Ctx, e: Env, keys: set<ObjectKey>): Pruned {
    var outcomes := Outcomes(c.world.cluster, keys, e.deleteFaults);
    var c' := c.SetCluster(AfterDeletes(c.world.cluster, keys, e.deleteFaults))
               .Log(Cleaned(outcomes, c.mem.deleting));
    match CleanupVerdict(outcomes)
    case Passed => Clean(c')
    case NotReady => Waiting(c')
    case Failed => Broken(c'.SetState(StateError))
  }

  function DeleteResources(c: Ctx, e: Env, keys: set<ObjectKey>): Pruned {
    if !c.mem.deleting then
      Cleanup(c, e, keys)
    else
      match PreDelete(c, e)
      case Stop(c') => Broken(c')
      case Go(c') => Cleanup(c', e, keys)
  }

  function RemovePrerequisites(c: Ctx, e: Env): Pruned {
    if e.spec != Some(Helm) || !e.chart.Chart? then
      Clean(c)
    else
      var outcomes := Outcomes(c.world.cluster, e.chart.crds, e.deleteFaults);
      var c' := c.SetCluster(AfterDeletes(c.world.cluster, e.chart.crds, e.deleteFaults))
                 .Log(PrerequisitesCleaned(outcomes));
      match CleanupVerdict(outcomes)
      case Passed => Clean(c')
      case NotReady => Waiting(c')
      case Failed => Broken(c'.SetState(StateError))
  }

  function PruneDiff(cfg: Config, c: Ctx, e: Env, keys: set<ObjectKey>): Pruned {
    var p := DeleteResources(c, e, keys);
    if p.Clean? && c.mem.deleting && cfg.deletePrerequisites then RemovePrerequisites(p.ctx, e) else p
  }

  /** The hook that creates the custom resource if it is missing and puts its finalizer on the object. */
  function PostRun(c: Ctx, e: Env): Stage {
    match c.mem.resource
    case None => Go(c)
    case Some(k) =>
      if !e.customResource then
        Stop(c)
      else
        var made := {k} - c.world.cluster.Keys;
        var c' := c.SetCluster(AfterCreates(c.world.cluster, made)).Log(CustomResourceCreated(made));
        if OfCustomResource in c.mem.finalizers then
          Go(c')
        else if !e.hookWrite || c'.world.stored.None? then
          Stop(c')
        else
          var obj := c'.world.stored.value;
          Go(c'.Store(WithFinalizers(obj, obj.finalizers + c.mem.finalizers + {OfCustomResource}))
               .Log(CustomResourceFinalizerAdded))
  }

  function CheckReadiness(c: Ctx, e: Env): Stage {
    var c' := c.Log(ReadyChecked(e.check));
    match e.check
    case NotReady => Stop(c'.SetState(StateProcessing))
    case Failed => Stop(c'.SetState(StateError))
    case Passed =>
      if IsTrue(c.mem.status.conditions, Installation) && c.mem.status.state == StateReady then
        Go(c')
      else
        Stop(c'.SetConditions(c.mem.status.conditions[Installation := true]).SetState(StateReady))
  }

  /** The hooks, and after them the readiness check. */
  function FinishSync(c: Ctx, e: Env, target: seq<Resource>): Stage {
    match PostRun(c, e)
    case Stop(c') => Stop(c'.SetStatus(Status(StateError, c.mem.status.conditions, target)))
    case Go(c') => CheckReadiness(c', e)
  }

  function Landed(e: Env, keys: set<ObjectKey>): set<ObjectKey> {
    keys - (keys * e.applyFaults - e.applyLanded)
  }

  function SyncResources(c: Ctx, e: Env, target: seq<Resource>): Stage {
    var keys := Keys(target);
    var landed, failed := Landed(e, keys), keys * e.applyFaults;
    var applied := c.SetCluster(AfterCreates(c.world.cluster, landed)).Log(Applied(target, landed, failed));
    var status := c.mem.status;
    if failed != {} then
      Stop(applied.SetState(StateError))
    else if DiffOf(status.synced, target) != [] then
      Stop(applied.SetStatus(Status(StateProcessing, status.conditions, target)))
    else
      FinishSync(applied, e, target)
  }

  // ---------------------------------------------------------------- ends of a round

  /** The status patch: last writer wins, whatever the resource version. */
  function WriteStatus(c: Ctx, e: Env): Round {
    if e.write && c.world.stored.Some? then
      var obj := c.world.stored.value;
      var c' := c.Store(Some(obj.(status := c.mem.status, version := obj.version + 1)));
      Round(c'.world, c.log + [StatusWritten(c.mem.status.state, c.mem.status.synced)], Requeue)
    else
      Round(c.world, c.log, Requeue)
  }

  function AddOwnFinalizer(c: Ctx, e: Env): Round {
    if e.write && c.world.stored.Some? then
      var obj := c.world.stored.value;
      var c' := c.Store(WithFinalizers(obj, obj.finalizers + c.mem.finalizers + {Own}));
      Round(c'.world, c.log + [OwnFinalizerAdded], Requeue)
    else
      Round(c.world, c.log, Requeue)
  }

  /** The full update of the object is refused when somebody wrote it since it was read. */
  function FinishDeletion(c: Ctx, e: Env): Round {
    if Own in c.mem.finalizers then
      if e.update && c.world.stored.Some? && c.world.stored.value.version == c.mem.version then
        var c' := c.Store(WithFinalizers(c.world.stored.value, c.mem.finalizers - {Own}));
        Round(c'.world, c.log + [OwnFinalizerDropped], Updated)
      else
        Round(c.world, c.log, Updated)
    else
      WriteStatus(c.SetState(StateDeleting), e)
  }

  // ---------------------------------------------------------------- the round

  function Conclude(s: Stage, e: Env): Round {
    match s
    case Stop(c) => WriteStatus(c, e)
    case Go(c) => Round(c.world, c.log, OnSuccess)
  }

  function AfterPrune(p: Pruned, e: Env, target: seq<Resource>): Round {
    match p
    case Waiting(c) => Round(c.world, c.log, Requeue)
    case Broken(c) => WriteStatus(c, e)
    case Clean(c) =>
      if c.mem.deleting then
        FinishDeletion(c, e)
      else
        Conclude(SyncResources(c, e, target), e)
  }

  function AfterPrepare(cfg: Config, c: Ctx, e: Env): Round {
    match RenderResources(c, e)
    case Stop(c') => WriteStatus(c', e)
    case Go(c') =>
      var target := Target(c.mem.deleting, e);
      AfterPrune(PruneDiff(cfg, c', e, Dropped(cfg.matcher, c.mem.status.synced, target)), e, target)
  }

  function Work(cfg: Config, c: Ctx, e: Env): Round {
    match Initialize(c)
    case Stop(c') => WriteStatus(c', e)
    case Go(c') =>
      if !c'.mem.deleting && Own !in c'.mem.finalizers then
        AddOwnFinalizer(c', e)
      else
        match Prepare(c', e)
        case Stop(c'') => WriteStatus(c'', e)
        case Go(c'') => AfterPrepare(cfg, c'', e)
  }

  function Reconcile(cfg: Config, w: World, e: Env): Round {
    if w.stored.None? || !e.get || e.skip then
      Round(w, [], Ignored)
    else
      Work(cfg, Ctx(w.stored.value, w, []), e)
  }
}

/** What a round applies: where it lands, and exactly when the status then tracks it. */
module Landing {
  import opened Identity
  import opened Model
  import opened Protocol
  import opened Runs
  import opened Books
  import T = Tracking

  /** Every target is applied without an error and the status patch is not lost. */
  predicate Records(e: Env, target: seq<Resource>) {
    e.write && Keys(target) * e.applyFaults == {}
  }

  /** Whatever a round has applied is in the cluster, is part of the target, and the object is held. */
  ghost predicate Placed(e: Env, target: seq<Resource>, world: World, log: seq<Event>) {
    && LandedIn(log) <= world.cluster.Keys
    && LandedIn(log) <= Landed(e, Keys(target))
    && (LandedIn(log) != {} ==> Held(world))
  }

  /** The custom resource hook succeeds. */
  predicate HookPasses(o: Object, e: Env) {
    o.resource.None? || (e.customResource && (OfCustomResource in o.finalizers || e.hookWrite))
  }

  /** A round that applies something then writes the target down: nothing goes wrong, and the comparison sees a change or the
      hook fails. */
  predicate Rewrites(o: Object, e: Env, target: seq<Resource>) {
    Records(e, target) && (DiffOf(o.status.synced, target) != [] || !HookPasses(o, e))
  }

  /** The tracked list after a round that applies something. */
  function NewList(o: Object, e: Env, target: seq<Resource>): seq<Resource> {
    if Rewrites(o, e, target) then target else o.status.synced
  }

  ghost predicate Lands(e: Env, target: seq<Resource>, o: Object, world: World, log: seq<Event>) {
    && Placed(e, target, world, log)
    && (LandedIn(log) != {} && world.stored.Some? ==> world.stored.value.status.synced == NewList(o, e, target))
  }

  lemma WritingLands(c: Ctx, e: Env, target: seq<Resource>, o: Object)
    requires Placed(e, target, c.world, c.log)
    requires LandedIn(c.log) != {} && e.write ==> c.mem.status.synced == NewList(o, e, target)
    requires c.world.stored.Some? ==> c.world.stored.value.status.synced == o.status.synced
    ensures var r := WriteStatus(c, e); Lands(e, target, o, r.world, r.log)
  {
    HistoryOfOne(c.log, StatusWritten(c.mem.status.state, c.mem.status.synced));
  }

  /** The target was applied in full and the comparison saw no change. */
  ghost predicate Repeats(c: Ctx, e: Env, target: seq<Resource>, o: Object) {
    && Held(c.world) && Placed(e, target, c.world, c.log)
    && c.mem.status.synced == c.world.stored.value.status.synced == o.status.synced
    && c.mem.resource == o.resource && c.mem.finalizers == o.finalizers
    && Keys(target) * e.applyFaults == {} && DiffOf(o.status.synced, target) == []
  }

  lemma ReadinessLands(c: Ctx, e: Env, target: seq<Resource>, o: Object)
    requires Repeats(c, e, target, o) && HookPasses(o, e)
    ensures var r := Conclude(CheckReadiness(c, e), e); Lands(e, target, o, r.world, r.log)
  {
    HistoryOfOne(c.log, ReadyChecked(e.check));
    match CheckReadiness(c, e)
    case Stop(c') => WritingLands(c', e, target, o);
    case Go(c') =>
  }

  lemma FinishLands(c: Ctx, e: Env, target: seq<Resource>, o: Object)
    requires Repeats(c, e, target, o)
    ensures var r := Conclude(FinishSync(c, e, target), e); Lands(e, target, o, r.world, r.log)
  {
    PostRunMakesOnlyTheResource(System(c.world, {}, {}, {}, []), c, e);
    match PostRun(c, e)
    case Stop(c') => WritingLands(c'.SetStatus(Status(StateError, c.mem.status.conditions, target)), e, target, o);
    case Go(c') => ReadinessLands(c', e, target, o);
  }

  /** The working copy still names the custom resource, the finalizers and the list that were read. */
  ghost predicate Reads(c: Ctx, o: Object) {
    && c.mem.resource == o.resource && c.mem.finalizers == o.finalizers && c.mem.status.synced == o.status.synced
    && (c.world.stored.Some? ==> c.world.stored.value.status.synced == o.status.synced)
  }

  lemma SyncLands(c: Ctx, e: Env, target: seq<Resource>, o: Object)
    requires LandedIn(c.log) == {} && Held(c.world) && Reads(c, o)
    ensures var r := Conclude(SyncResources(c, e, target), e); Lands(e, target, o, r.world, r.log)
  {
    var landed, failed := Landed(e, Keys(target)), Keys(target) * e.applyFaults;
    var applied := c.SetCluster(AfterCreates(c.world.cluster, landed)).Log(Applied(target, landed, failed));
    ApplyAddsTheTarget(System(c.world, {}, {}, {}, []), c, target, landed, failed);
    if failed != {} {
      WritingLands(applied.SetState(StateError), e, target, o);
    } else if DiffOf(o.status.synced, target) != [] {
      WritingLands(applied.SetStatus(Status(StateProcessing, c.mem.status.conditions, target)), e, target, o);
    } else {
      FinishLands(applied, e, target, o);
    }
  }

  lemma PrunedLands(cfg: Config, c: Ctx, e: Env, target: seq<Resource>, keys: set<ObjectKey>, o: Object)
    requires LandedIn(c.log) == {} && c.world.stored.Some? && Reads(c, o)
    requires !c.mem.deleting ==> Held(c.world)
    ensures var r := AfterPrune(PruneDiff(cfg, c, e, keys), e, target);
            Lands(e, target, o, r.world, r.log)
  {
    PruningLeavesNothing(cfg, c, e, keys);
    match PruneDiff(cfg, c, e, keys)
    case Waiting(c') =>
    case Broken(c') => WritingLands(c', e, target, o);
    case Clean(c') =>
      if c'.mem.deleting {
        HistoryOfOne(c'.log, OwnFinalizerDropped);
        WritingLands(c'.SetState(StateDeleting), e, target, o);
      } else {
        SyncLands(c', e, target, o);
      }
  }

  lemma RenderedLands(cfg: Config, c: Ctx, e: Env, o: Object)
    requires LandedIn(c.log) == {} && c.world.stored.Some? && Reads(c, o)
    requires !c.mem.deleting ==> Held(c.world)
    ensures var r := AfterPrepare(cfg, c, e); Lands(e, Target(c.mem.deleting, e), o, r.world, r.log)
  {
    var target := Target(c.mem.deleting, e);
    match RenderResources(c, e)
    case Stop(c') => WritingLands(c', e, target, o);
    case Go(c') => PrunedLands(cfg, c', e, target, Dropped(cfg.matcher, c.mem.status.synced, target), o);
  }

  /** Whatever a round applied is in the cluster, belongs to its target and the object is held; and if it applied anything, the
      tracked list is the one that `NewList` says. */
  lemma RoundLands(cfg: Config, w: World, e: Env)
    requires w.stored.Some?
    ensures var r := Reconcile(cfg, w, e);
            Lands(e, Target(w.stored.value.deleting, e), w.stored.value, r.world, r.log)
  {
    var o := w.stored.value;
    var target := Target(o.deleting, e);
    if e.get && !e.skip {
      var c := Ctx(o, w, []);
      match Initialize(c)
      case Stop(c') => WritingLands(c', e, target, o);
      case Go(c') =>
        if !c'.mem.deleting && Own !in c'.mem.finalizers {
          HistoryOfOne([], OwnFinalizerAdded);
        } else {
          PreparationAddsNothing(System(w, {}, {}, {}, []), c', e);
          match Prepare(c', e)
          case Stop(c'') => WritingLands(c'', e, target, o);
          case Go(c'') => RenderedLands(cfg, c'', e, o);
        }
    }
  }

  // ---------------------------------------------------------------- what a round forgets

  /** The exact condition under which the status tracks everything a round applied: it was tracked before, or the round wrote the
      target down. */
  lemma RoundTracksIff(cfg: Config, w: World, e: Env)
    requires w.stored.Some? && Reconcile(cfg, w, e).world.stored.Some?
    ensures var o, r := w.stored.value, Reconcile(cfg, w, e);
            LandedIn(r.log) <= Keys(r.world.stored.value.status.synced) <==>
            LandedIn(r.log) <= Keys(o.status.synced) || Rewrites(o, e, Target(o.deleting, e))
  {
    RoundLands(cfg, w, e);
  }

  /** Where no identifier is repeated and no component has a slash, only an error makes a round forget: one in which every target
      is applied and the status patch gets through tracks everything it applied. */
  lemma FaultlessRoundTracks(cfg: Config, w: World, e: Env)
    requires w.stored.Some? && Reconcile(cfg, w, e).world.stored.Some?
    requires GoodList(w.stored.value.status.synced) && GoodList(Target(w.stored.value.deleting, e))
    requires Records(e, Target(w.stored.value.deleting, e))
    ensures var r := Reconcile(cfg, w, e); LandedIn(r.log) <= Keys(r.world.stored.value.status.synced)
  {
    var o := w.stored.value;
    var target := Target(o.deleting, e);
    RoundLands(cfg, w, e);
    if DiffOf(o.status.synced, target) == [] {
      DiffEmptyIffSameIDs(o.status.synced, target);
      SameIDsSameResources(target, o.status.synced);
    }
  }

  /** A round with a failed apply or a lost status patch forgets what it applied and did not track before: it is in the
      cluster and nobody is in charge of it. */
  lemma FaultyRoundForgets(cfg: Config, w: World, e: Env)
    requires w.stored.Some? && Reconcile(cfg, w, e).world.stored.Some?
    requires !Records(e, Target(w.stored.value.deleting, e))
    ensures var r := Reconcile(cfg, w, e);
            && r.world.stored.value.status.synced == w.stored.value.status.synced
            && LandedIn(r.log) - Keys(w.stored.value.status.synced)
               == LandedIn(r.log) * r.world.cluster.Keys - Keys(r.world.stored.value.status.synced)
  {
    RoundLands(cfg, w, e);
    T.RoundTracking(cfg, w, e);
  }

  /** Such rounds exist: one of two objects is applied, the other refused, and then nobody is in charge of the first one. */
  lemma PartialApplyForgets(cfg: Config) returns (w: World, e: Env, k: ObjectKey)
    ensures w.stored.Some? && w.cluster == map[] && e.write
    ensures var after := Reconcile(cfg, w, e).world;
            after.stored.Some? && k in after.cluster && k !in Keys(after.stored.value.status.synced)
  {
    var a := Resource("", "a", GroupVersionKind("", "", ""));
    var b := Resource("", "b", GroupVersionKind("", "", ""));
    var o := Object(Status(StateProcessing, map[Resources := true, Installation := true], []), {Own}, false, None, 0);
    w, k := World(Some(o), map[]), a.Key();
    e := CalmEnv(Raw, {}, [a, b]).(applyFaults := {b.Key()});
    var c := Ctx(o, w, []);
    assert Initialize(c) == Go(c);
    assert Prepare(c, e) == Go(c);
    assert RenderResources(c, e) == Go(c);
    assert Dropped(cfg.matcher, [], [a, b]) == {};
    var pruned := c.Log(Cleaned(map[], false));
    assert PruneDiff(cfg, c, e, {}) == Pruned.Clean(pruned);
    assert a in [a, b] && b in [a, b];
    assert k in Landed(e, Keys([a, b])) && b.Key() in Keys([a, b]) * e.applyFaults;
    assert Reconcile(cfg, w, e) == Conclude(SyncResources(pruned, e, [a, b]), e);
  }

  /** The last part of a round without any error that sees no change: the target is applied, the list stays. */
  lemma UnseenLands(c: Ctx, e: Env, target: seq<Resource>)
    requires e.write && e.applyFaults == {} && e.check.Passed? && c.mem.resource.None?
    requires c.world.stored.Some? && c.mem.status.state != StateReady && DiffOf(c.mem.status.synced, target) == []
    ensures var after := Conclude(SyncResources(c, e, target), e).world;
            && after.stored.Some? && after.stored.value.status.state == StateReady
            && after.stored.value.status.synced == c.mem.status.synced && Keys(target) <= after.cluster.Keys
  {
  }

  lemma RepeatsAreNotSeen(m: Matcher, a: Resource, b: Resource)
    ensures DiffOf([a, a], [a, b]) == [] && Dropped(m, [a, a], [a, b]) == {}
  {
    DiffEmptyIffCovered([a, a], [a, b]);
    assert a in [a, b] && forall r | r in [a, a] :: r == a;
  }

  /** A round without any error forgets too, where the tracked list repeats an identifier: the comparison does not see that the
      target has one more object, which is applied, not tracked, and Ready. */
  lemma RepeatedListForgets(cfg: Config, a: Resource, b: Resource)
    requires a.Key() != b.Key()
    ensures var o := Object(Status(StateProcessing, map[Resources := true, Installation := true], [a, a]), {Own}, false, None, 0);
            var e := CalmEnv(Raw, {}, [a, b]);
            var after := Reconcile(cfg, World(Some(o), map[]), e).world;
            && Records(e, [a, b]) && after.stored.Some? && after.stored.value.status.state == StateReady
            && b.Key() in after.cluster && b.Key() !in Keys(after.stored.value.status.synced)
  {
    var o := Object(Status(StateProcessing, map[Resources := true, Installation := true], [a, a]), {Own}, false, None, 0);
    var e := CalmEnv(Raw, {}, [a, b]);
    var w := World(Some(o), map[]);
    var c := Ctx(o, w, []);
    RepeatsAreNotSeen(cfg.matcher, a, b);
    assert Initialize(c) == Go(c) && RenderResources(c, e) == Go(c);
    var pruned := PruneDiff(cfg, c, e, {});
    assert pruned.Clean? && pruned.ctx.mem == o && pruned.ctx.world.stored == w.stored;
    UnseenLands(pruned.ctx, e, [a, b]);
    assert Reconcile(cfg, w, e) == Conclude(SyncResources(pruned.ctx, e, [a, b]), e);
    assert b in [a, b] && forall r | r in [a, a] :: r == a;
  }
}

/** The books of a run: whatever the controller made and is still there is accounted for. */
module Books {
  import opened Identity
  import opened Model
  import opened Protocol
  import opened Runs

  /** Everything made and still there is something the object is in charge of, or is accounted for. */
  ghost predicate Inv(s: System) {
    s.world.cluster.Keys * s.made - s.untracked - s.installed <= Charge(s.world)
  }

  /** The assumptions of leak-freedom on one move: nobody else creates what the controller makes or changes the custom
      resource of the spec. */
  ghost predicate Tame(s: System, m: Move) {
    KeepsResource(s, m) && (m.Outside? ==> CreatesNothing(s, m.next))
  }

  /** What is left of the things made so far, apart from what is accounted for otherwise. */
  function Left(s: System, cluster: Cluster, log: seq<Event>): set<ObjectKey> {
    cluster.Keys * (s.made + Made(log)) - s.untracked - s.installed - Installed(log)
  }

  // ---------------------------------------------------------------- stage by stage

  /** A stage that makes nothing, takes no key away and leaves the bookkeeping as it is. */
  ghost predicate MakesNothing(c: Ctx, c': Ctx) {
    && c'.world.cluster.Keys == c.world.cluster.Keys
    && Made(c'.log) == Made(c.log) && LandedIn(c'.log) == LandedIn(c.log) && Installed(c'.log) == Installed(c.log)
    && c'.mem == c.mem.(status := c'.mem.status) && c'.mem.status.synced == c.mem.status.synced
    && (Held(c'.world) <==> Held(c.world))
    && (c'.world.stored.Some? ==>
          && c.world.stored.Some?
          && c'.world.stored.value == c.world.stored.value.(finalizers := c'.world.stored.value.finalizers,
                                                            version := c'.world.stored.value.version))
  }

  /** Up to pruning a round only installs prerequisites and leaves the persisted object alone. */
  lemma PreparationAddsNothing(s: System, c: Ctx, e: Env)
    requires c.log == []
    ensures var c' := Prepare(c, e).ctx;
            && c'.world.stored == c.world.stored
            && c'.mem == c.mem.(status := c'.mem.status)
            && c'.mem.status.synced == c.mem.status.synced
            && Left(s, c'.world.cluster, c'.log) <= Left(s, c.world.cluster, c.log)
            && Made(c'.log) == {} && LandedIn(c'.log) == {}
  {
    if e.chart.Chart? {
      HistoryOfOne([], PrerequisitesInstalled(e.chart.crds - e.crdFaults - c.world.cluster.Keys));
    }
  }

  lemma PreDeleteMakesNothing(c: Ctx, e: Env)
    ensures var p := PreDelete(c, e);
            MakesNothing(c, p.ctx) && (p.Go? ==> p.ctx.world.cluster.Keys !! ResourceOf(c.mem))
  {
    if c.mem.resource.Some? {
      var k := c.mem.resource.value;
      forall o: DeleteOutcome {
        HistoryOfOne(c.log, CustomResourceDeleted(k, o));
      }
      HistoryOfOne(c.log + [CustomResourceDeleted(k, NotFound)], CustomResourceFinalizerDropped);
    }
  }

  lemma AllGone(cluster: Cluster, keys: set<ObjectKey>, faults: set<ObjectKey>)
    ensures CleanupVerdict(Outcomes(cluster, keys, faults)) == Passed ==> cluster.Keys !! keys
  {
    var outcomes := Outcomes(cluster, keys, faults);
    if CleanupVerdict(outcomes) == Passed {
      forall k | k in keys ensures k !in cluster {
        assert k in outcomes.Keys;
        assert outcomes[k] in outcomes.Values;
      }
    }
  }

  lemma CleanupMakesNothing(c: Ctx, e: Env, keys: set<ObjectKey>)
    ensures var p := Cleanup(c, e, keys);
            MakesNothing(c, p.ctx) && (p.Clean? ==> p.ctx.world.cluster.Keys !! keys)
  {
    AllGone(c.world.cluster, keys, e.deleteFaults);
    HistoryOfOne(c.log, Cleaned(Outcomes(c.world.cluster, keys, e.deleteFaults), c.mem.deleting));
  }

  lemma RemovalMakesNothing(c: Ctx, e: Env)
    ensures MakesNothing(c, RemovePrerequisites(c, e).ctx)
  {
    if e.chart.Chart? {
      HistoryOfOne(c.log, PrerequisitesCleaned(Outcomes(c.world.cluster, e.chart.crds, e.deleteFaults)));
    }
  }

  /** When pruning is done every key it was given is absent, and in a deletion the custom resource as well. */
  lemma PruningLeavesNothing(cfg: Config, c: Ctx, e: Env, keys: set<ObjectKey>)
    ensures var p := PruneDiff(cfg, c, e, keys);
            && MakesNothing(c, p.ctx)
            && (p.Clean? ==> p.ctx.world.cluster.Keys !! keys)
            && (p.Clean? && c.mem.deleting ==> p.ctx.world.cluster.Keys !! ResourceOf(c.mem))
            && (!c.mem.deleting ==> p.ctx.world.stored == c.world.stored)
  {
    PreDeleteMakesNothing(c, e);
    var c1 := if c.mem.deleting then PreDelete(c, e).ctx else c;
    CleanupMakesNothing(c1, e, keys);
    RemovalMakesNothing(DeleteResources(c, e, keys).ctx, e);
  }

  lemma PostRunMakesOnlyTheResource(s: System, c: Ctx, e: Env)
    ensures var c' := PostRun(c, e).ctx;
            && c'.mem == c.mem
            && LandedIn(c'.log) == LandedIn(c.log)
            && Left(s, c'.world.cluster, c'.log) <= Left(s, c.world.cluster, c.log) + ResourceOf(c.mem)
  {
    if c.mem.resource.Some? {
      var made := {c.mem.resource.value} - c.world.cluster.Keys;
      HistoryOfOne(c.log, CustomResourceCreated(made));
      HistoryOfOne(c.log + [CustomResourceCreated(made)], CustomResourceFinalizerAdded);
    }
  }

  // ---------------------------------------------------------------- ends of a round

  /** What is left and was not applied by this round. */
  function Older(s: System, cluster: Cluster, log: seq<Event>): set<ObjectKey> {
    Left(s, cluster, log) - LandedIn(log)
  }

  /** The books of a round that ends in `world` after `log`. */
  ghost predicate Balanced(s: System, world: World, log: seq<Event>) {
    Older(s, world.cluster, log) <= Charge(world)
  }

  lemma WritingKeepsBalance(s: System, c: Ctx, e: Env)
    requires Balanced(s, c.world, c.log)
    requires Held(c.world) ==> Older(s, c.world.cluster, c.log) <= Keys(c.mem.status.synced) + ResourceOf(c.world.stored.value)
    ensures var r := WriteStatus(c, e); Balanced(s, r.world, r.log)
  {
    HistoryOfOne(c.log, StatusWritten(c.mem.status.state, c.mem.status.synced));
  }

  lemma NothingOlder(s: System, c: Ctx)
    requires Balanced(s, c.world, c.log) && c.world.cluster.Keys !! Charge(c.world)
    ensures Older(s, c.world.cluster, c.log) == {}
  {
    assert Older(s, c.world.cluster, c.log) <= c.world.cluster.Keys * Charge(c.world) == {};
  }

  lemma FinishingKeepsBalance(s: System, c: Ctx, e: Env)
    requires Balanced(s, c.world, c.log)
    requires Held(c.world) ==> c.mem.status.synced == c.world.stored.value.status.synced
    requires c.world.cluster.Keys !! Charge(c.world)
    ensures var r := FinishDeletion(c, e); Balanced(s, r.world, r.log)
  {
    if Own in c.mem.finalizers {
      NothingOlder(s, c);
      HistoryOfOne(c.log, OwnFinalizerDropped);
      var r := FinishDeletion(c, e);
      assert Older(s, r.world.cluster, r.log) == Older(s, c.world.cluster, c.log);
    } else {
      WritingKeepsBalance(s, c.SetState(StateDeleting), e);
    }
  }

  /** A tracked object that survives pruning is part of the target or mismatched. */
  lemma SurvivorsAreTargets(m: Matcher, current: seq<Resource>, target: seq<Resource>, present: set<ObjectKey>)
    requires present !! Dropped(m, current, target)
    ensures present * Keys(current) <= Keys(target) + Mismatched(m, current, target)
  {
    forall k | k in present * Keys(current) ensures k in Keys(target) + Mismatched(m, current, target) {
      var r :| r in current && r.Key() == k;
      assert r.MatchKey(m) in MatchKeys(m, target);
    }
  }

  /** Of the older things only the custom resource is left: all others are part of the target that was just applied. */
  ghost predicate OnlyResource(s: System, c: Ctx) {
    && Held(c.world)
    && c.mem.resource == c.world.stored.value.resource
    && Older(s, c.world.cluster, c.log) <= ResourceOf(c.mem)
  }

  lemma HookKeepsOnlyResource(s: System, c: Ctx, e: Env)
    requires OnlyResource(s, c)
    ensures OnlyResource(s, PostRun(c, e).ctx) && PostRun(c, e).ctx.mem == c.mem
  {
    PostRunMakesOnlyTheResource(s, c, e);
  }

  lemma CheckKeepsOnlyResource(s: System, c: Ctx, e: Env)
    requires OnlyResource(s, c)
    ensures OnlyResource(s, CheckReadiness(c, e).ctx)
  {
    HistoryOfOne(c.log, ReadyChecked(e.check));
  }

  lemma FinishKeepsBalance(s: System, c: Ctx, e: Env, target: seq<Resource>)
    requires OnlyResource(s, c)
    ensures var r := Conclude(FinishSync(c, e, target), e); Balanced(s, r.world, r.log)
  {
    HookKeepsOnlyResource(s, c, e);
    match PostRun(c, e)
    case Stop(c') =>
      WritingKeepsBalance(s, c'.SetStatus(Status(StateError, c.mem.status.conditions, target)), e);
    case Go(c') =>
      CheckKeepsOnlyResource(s, c', e);
      match CheckReadiness(c', e)
      case Stop(c'') => WritingKeepsBalance(s, c'', e);
      case Go(c'') =>
  }

  lemma ApplyAddsTheTarget(s: System, c: Ctx, target: seq<Resource>, landed: set<ObjectKey>, failed: set<ObjectKey>)
    requires LandedIn(c.log) == {}
    ensures var c' := c.SetCluster(AfterCreates(c.world.cluster, landed)).Log(Applied(target, landed, failed));
            && LandedIn(c'.log) == landed
            && Older(s, c'.world.cluster, c'.log) <= Older(s, c.world.cluster, c.log) - landed
  {
    HistoryOfOne(c.log, Applied(target, landed, failed));
  }

  lemma SyncKeepsBalance(s: System, cfg: Config, c: Ctx, e: Env, target: seq<Resource>)
    requires Held(c.world) && c.mem.resource == c.world.stored.value.resource
    requires c.mem.status.synced == c.world.stored.value.status.synced
    requires Balanced(s, c.world, c.log) && LandedIn(c.log) == {}
    requires Mismatched(cfg.matcher, c.mem.status.synced, target) <= s.untracked
    requires c.world.cluster.Keys !! Dropped(cfg.matcher, c.mem.status.synced, target)
    ensures var r := Conclude(SyncResources(c, e, target), e); Balanced(s, r.world, r.log)
  {
    var keys := Keys(target);
    var landed, failed := Landed(e, keys), keys * e.applyFaults;
    var applied := c.SetCluster(AfterCreates(c.world.cluster, landed)).Log(Applied(target, landed, failed));
    ApplyAddsTheTarget(s, c, target, landed, failed);
    if failed != {} {
      WritingKeepsBalance(s, applied.SetState(StateError), e);
    } else {
      SurvivorsAreTargets(cfg.matcher, c.mem.status.synced, target, c.world.cluster.Keys);
      assert landed == keys;
      forall k | k in Older(s, applied.world.cluster, applied.log) ensures k in ResourceOf(c.mem) {
        assert k in Older(s, c.world.cluster, c.log) && k !in keys;
      }
      if DiffOf(c.mem.status.synced, target) != [] {
        WritingKeepsBalance(s, applied.SetStatus(Status(StateProcessing, c.mem.status.conditions, target)), e);
      } else {
        FinishKeepsBalance(s, applied, e, target);
      }
    }
  }

  lemma PrunedKeepsBalance(s: System, cfg: Config, c: Ctx, e: Env, target: seq<Resource>)
    requires c.world.stored.Some? && c.mem == c.world.stored.value.(status := c.mem.status)
    requires c.mem.status.synced == c.world.stored.value.status.synced
    requires Balanced(s, c.world, c.log) && LandedIn(c.log) == {}
    requires Mismatched(cfg.matcher, c.mem.status.synced, target) <= s.untracked
    requires c.mem.deleting ==> target == []
    requires !c.mem.deleting ==> Held(c.world)
    ensures var p := PruneDiff(cfg, c, e, Dropped(cfg.matcher, c.mem.status.synced, target));
            var r := AfterPrune(p, e, target);
            Balanced(s, r.world, r.log)
  {
    var keys := Dropped(cfg.matcher, c.mem.status.synced, target);
    var p := PruneDiff(cfg, c, e, keys);
    PruningLeavesNothing(cfg, c, e, keys);
    assert Older(s, p.ctx.world.cluster, p.ctx.log) == Older(s, c.world.cluster, c.log);
    match p
    case Waiting(c') =>
    case Broken(c') => WritingKeepsBalance(s, c', e);
    case Clean(c') =>
      if c.mem.deleting {
        assert keys == Keys(c.mem.status.synced);
        FinishingKeepsBalance(s, c', e);
      } else {
        SyncKeepsBalance(s, cfg, c', e, target);
      }
  }

  lemma RenderedKeepsBalance(s: System, cfg: Config, c: Ctx, e: Env)
    requires c.world.stored.Some? && c.mem == c.world.stored.value.(status := c.mem.status)
    requires c.mem.status.synced == c.world.stored.value.status.synced
    requires Balanced(s, c.world, c.log) && LandedIn(c.log) == {}
    requires !c.mem.deleting ==> Held(c.world)
    requires Mismatched(cfg.matcher, c.mem.status.synced, Target(c.mem.deleting, e)) <= s.untracked
    ensures var r := AfterPrepare(cfg, c, e); Balanced(s, r.world, r.log)
  {
    match RenderResources(c, e)
    case Stop(c') => WritingKeepsBalance(s, c', e);
    case Go(c') => PrunedKeepsBalance(s, cfg, c', e, Target(c.mem.deleting, e));
  }

  lemma WorkKeepsBalance(s: System, cfg: Config, c: Ctx, e: Env)
    requires c.world.stored == Some(c.mem) && c.log == []
    requires Balanced(s, c.world, c.log)
    requires Mismatched(cfg.matcher, c.mem.status.synced, Target(c.mem.deleting, e)) <= s.untracked
    ensures var r := Work(cfg, c, e); Balanced(s, r.world, r.log)
  {
    match Initialize(c)
    case Stop(c') => WritingKeepsBalance(s, c', e);
    case Go(c') =>
      if !c'.mem.deleting && Own !in c'.mem.finalizers {
        HistoryOfOne([], OwnFinalizerAdded);
      } else {
        PreparationAddsNothing(s, c', e);
        match Prepare(c', e)
        case Stop(c'') => WritingKeepsBalance(s, c'', e);
        case Go(c'') => RenderedKeepsBalance(s, cfg, c'', e);
      }
  }

  /** Every round keeps the books, whatever it is answered. */
  lemma ReconcileKeepsInv(cfg: Config, s: System, e: Env)
    requires Inv(s)
    ensures Inv(Step(cfg, s, Reconciled(e)))
  {
    if s.world.stored.Some? && e.get && !e.skip {
      var c := Ctx(s.world.stored.value, s.world, []);
      WorkKeepsBalance(s.(untracked := s.untracked + Mislaid(cfg, s.world, e)), cfg, c, e);
    }
  }

  // ---------------------------------------------------------------- whole runs

  ghost predicate TameRun(cfg: Config, s: System, moves: seq<Move>) {
    forall i | 0 <= i < |moves| :: Tame(Exec(cfg, s, moves[..i]), moves[i])
  }

  lemma TamePrefix(cfg: Config, s: System, moves: seq<Move>, n: nat)
    requires n <= |moves| && TameRun(cfg, s, moves)
    ensures TameRun(cfg, s, moves[..n])
  {
    forall i | 0 <= i < n ensures Tame(Exec(cfg, s, moves[..n][..i]), moves[..n][i]) {
      assert moves[..n][..i] == moves[..i];
    }
  }

  lemma MoveKeepsInv(cfg: Config, s: System, m: Move)
    requires Inv(s) && Allowed(s, m) && Tame(s, m)
    ensures Inv(Step(cfg, s, m))
  {
    match m
    case Outside(next) =>
    case Reconciled(e) => ReconcileKeepsInv(cfg, s, e);
  }

  lemma {:induction false} RunsKeepInv(cfg: Config, s: System, moves: seq<Move>)
    requires Inv(s) && Legal(cfg, s, moves) && TameRun(cfg, s, moves)
    ensures Inv(Exec(cfg, s, moves))
  {
    if moves != [] {
      var n := |moves| - 1;
      var before := Exec(cfg, s, moves[..n]);
      LegalPrefix(cfg, s, moves, n);
      TamePrefix(cfg, s, moves, n);
      RunsKeepInv(cfg, s, moves[..n]);
      assert Allowed(before, moves[n]) && Tame(before, moves[n]);
      MoveKeepsInv(cfg, before, moves[n]);
    }
  }

  /** In every run of a new object, for any sequence of specs, whenever the reconciler's finalizer is not on the object (so
      after its removal, and after the object is gone) the cluster holds nothing the controller ever made, except what was
      applied, mismatched or created as a prerequisite and never looked after since. */
  lemma ReleasedBooks(cfg: Config, s: System, moves: seq<Move>, k: ObjectKey)
    requires Fresh(s) && Legal(cfg, s, moves) && TameRun(cfg, s, moves)
    requires !Held(Exec(cfg, s, moves).world)
    requires k in Exec(cfg, s, moves).world.cluster && k in Exec(cfg, s, moves).made
    ensures k in Exec(cfg, s, moves).untracked || k in Exec(cfg, s, moves).installed
  {
    RunsKeepInv(cfg, s, moves);
    var after := Exec(cfg, s, moves);
    assert k !in after.world.cluster.Keys * after.made - after.untracked - after.installed;
  }
}

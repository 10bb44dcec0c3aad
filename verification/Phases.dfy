/** A round looks only at which objects there are, never at which of them are already on their way out. */
module Phases {
  import opened Identity
  import opened Model
  import opened Protocol

  /** The same cluster where the objects of `gone` are terminating. */
  function Dim(c: Cluster, gone: set<ObjectKey>): Cluster {
    map k | k in c :: if k in gone then Terminating else c[k]
  }

  function DimWorld(w: World, gone: set<ObjectKey>): World {
    w.(cluster := Dim(w.cluster, gone))
  }

  function DimCtx(c: Ctx, gone: set<ObjectKey>): Ctx {
    c.(world := DimWorld(c.world, gone))
  }

  function DimStage(s: Stage, gone: set<ObjectKey>): Stage {
    match s
    case Go(c) => Go(DimCtx(c, gone))
    case Stop(c) => Stop(DimCtx(c, gone))
  }

  function DimPruned(p: Pruned, gone: set<ObjectKey>): Pruned {
    match p
    case Clean(c) => Clean(DimCtx(c, gone))
    case Waiting(c) => Waiting(DimCtx(c, gone))
    case Broken(c) => Broken(DimCtx(c, gone))
  }

  function DimRound(r: Round, gone: set<ObjectKey>): Round {
    r.(world := DimWorld(r.world, gone))
  }

  // ---------------------------------------------------------------- calls

  lemma DimDeletes(c: Cluster, gone: set<ObjectKey>, keys: set<ObjectKey>, faults: set<ObjectKey>)
    ensures AfterDeletes(Dim(c, gone), keys, faults) == Dim(AfterDeletes(c, keys, faults), gone)
    ensures Outcomes(Dim(c, gone), keys, faults) == Outcomes(c, keys, faults)
    ensures AfterDeletes(c, keys, faults).Keys == c.Keys
  {
  }

  lemma DimCreates(c: Cluster, gone: set<ObjectKey>, keys: set<ObjectKey>)
    requires gone <= c.Keys
    ensures AfterCreates(Dim(c, gone), keys) == Dim(AfterCreates(c, keys), gone)
    ensures Dim(c, gone).Keys == c.Keys <= AfterCreates(c, keys).Keys
  {
  }

  // ---------------------------------------------------------------- stages

  lemma DimPrepare(c: Ctx, e: Env, gone: set<ObjectKey>)
    requires gone <= c.world.cluster.Keys
    ensures Prepare(DimCtx(c, gone), e) == DimStage(Prepare(c, e), gone)
    ensures gone <= Prepare(c, e).ctx.world.cluster.Keys
  {
    if e.chart.Chart? {
      var created := e.chart.crds - e.crdFaults - c.world.cluster.Keys;
      DimCreates(c.world.cluster, gone, created);
      assert CreateCRDs(DimCtx(c, gone), e.chart.crds, e.crdFaults) == DimCtx(CreateCRDs(c, e.chart.crds, e.crdFaults), gone);
    }
  }

  lemma DimPreDelete(c: Ctx, e: Env, gone: set<ObjectKey>)
    ensures PreDelete(DimCtx(c, gone), e) == DimStage(PreDelete(c, e), gone)
    ensures PreDelete(c, e).ctx.world.cluster.Keys == c.world.cluster.Keys
  {
    if c.mem.resource.Some? {
      DimDeletes(c.world.cluster, gone, {c.mem.resource.value}, {});
    }
  }

  lemma DimCleanup(c: Ctx, e: Env, keys: set<ObjectKey>, gone: set<ObjectKey>)
    ensures Cleanup(DimCtx(c, gone), e, keys) == DimPruned(Cleanup(c, e, keys), gone)
    ensures Cleanup(c, e, keys).ctx.world.cluster.Keys == c.world.cluster.Keys
  {
    DimDeletes(c.world.cluster, gone, keys, e.deleteFaults);
  }

  lemma DimRemoval(c: Ctx, e: Env, gone: set<ObjectKey>)
    ensures RemovePrerequisites(DimCtx(c, gone), e) == DimPruned(RemovePrerequisites(c, e), gone)
    ensures RemovePrerequisites(c, e).ctx.world.cluster.Keys == c.world.cluster.Keys
  {
    if e.chart.Chart? {
      DimDeletes(c.world.cluster, gone, e.chart.crds, e.deleteFaults);
    }
  }

  lemma DimPrune(cfg: Config, c: Ctx, e: Env, keys: set<ObjectKey>, gone: set<ObjectKey>)
    ensures PruneDiff(cfg, DimCtx(c, gone), e, keys) == DimPruned(PruneDiff(cfg, c, e, keys), gone)
    ensures PruneDiff(cfg, c, e, keys).ctx.world.cluster.Keys == c.world.cluster.Keys
  {
    DimPreDelete(c, e, gone);
    DimCleanup(if c.mem.deleting then PreDelete(c, e).ctx else c, e, keys, gone);
    DimRemoval(DeleteResources(c, e, keys).ctx, e, gone);
  }

  lemma DimPostRun(c: Ctx, e: Env, gone: set<ObjectKey>)
    requires gone <= c.world.cluster.Keys
    ensures PostRun(DimCtx(c, gone), e) == DimStage(PostRun(c, e), gone)
  {
    if c.mem.resource.Some? {
      DimCreates(c.world.cluster, gone, {c.mem.resource.value} - c.world.cluster.Keys);
    }
  }

  lemma DimCheck(c: Ctx, e: Env, gone: set<ObjectKey>)
    ensures CheckReadiness(DimCtx(c, gone), e) == DimStage(CheckReadiness(c, e), gone)
  {
  }

  lemma DimSync(c: Ctx, e: Env, target: seq<Resource>, gone: set<ObjectKey>)
    requires gone <= c.world.cluster.Keys
    ensures SyncResources(DimCtx(c, gone), e, target) == DimStage(SyncResources(c, e, target), gone)
  {
    var landed, failed := Landed(e, Keys(target)), Keys(target) * e.applyFaults;
    DimCreates(c.world.cluster, gone, landed);
    var applied := c.SetCluster(AfterCreates(c.world.cluster, landed)).Log(Applied(target, landed, failed));
    DimPostRun(applied, e, gone);
    DimCheck(PostRun(applied, e).ctx, e, gone);
  }

  // ---------------------------------------------------------------- ends of a round

  lemma DimWrite(c: Ctx, e: Env, gone: set<ObjectKey>)
    ensures WriteStatus(DimCtx(c, gone), e) == DimRound(WriteStatus(c, e), gone)
  {
  }

  lemma DimConclude(s: Stage, e: Env, gone: set<ObjectKey>)
    ensures Conclude(DimStage(s, gone), e) == DimRound(Conclude(s, e), gone)
  {
    DimWrite(s.ctx, e, gone);
  }

  lemma DimFinish(c: Ctx, e: Env, gone: set<ObjectKey>)
    ensures FinishDeletion(DimCtx(c, gone), e) == DimRound(FinishDeletion(c, e), gone)
  {
    DimWrite(c.SetState(StateDeleting), e, gone);
  }

  lemma DimAfterPrune(p: Pruned, e: Env, target: seq<Resource>, gone: set<ObjectKey>)
    requires gone <= p.ctx.world.cluster.Keys
    ensures AfterPrune(DimPruned(p, gone), e, target) == DimRound(AfterPrune(p, e, target), gone)
  {
    DimWrite(p.ctx, e, gone);
    DimFinish(p.ctx, e, gone);
    DimSync(p.ctx, e, target, gone);
    DimConclude(SyncResources(p.ctx, e, target), e, gone);
  }

  lemma DimAfterPrepare(cfg: Config, c: Ctx, e: Env, gone: set<ObjectKey>)
    requires gone <= c.world.cluster.Keys
    ensures AfterPrepare(cfg, DimCtx(c, gone), e) == DimRound(AfterPrepare(cfg, c, e), gone)
  {
    assert RenderResources(DimCtx(c, gone), e) == DimStage(RenderResources(c, e), gone);
    var c', target := RenderResources(c, e).ctx, Target(c.mem.deleting, e);
    var keys := Dropped(cfg.matcher, c.mem.status.synced, target);
    DimWrite(c', e, gone);
    DimPrune(cfg, c', e, keys, gone);
    DimAfterPrune(PruneDiff(cfg, c', e, keys), e, target, gone);
  }

  lemma DimWork(cfg: Config, c: Ctx, e: Env, gone: set<ObjectKey>)
    requires gone <= c.world.cluster.Keys
    ensures Work(cfg, DimCtx(c, gone), e) == DimRound(Work(cfg, c, e), gone)
  {
    assert Initialize(DimCtx(c, gone)) == DimStage(Initialize(c), gone);
    var c' := Initialize(c).ctx;
    DimWrite(c', e, gone);
    assert AddOwnFinalizer(DimCtx(c', gone), e) == DimRound(AddOwnFinalizer(c', e), gone);
    DimPrepare(c', e, gone);
    var c'' := Prepare(c', e).ctx;
    DimWrite(c'', e, gone);
    DimAfterPrepare(cfg, c'', e, gone);
  }

  /** Two worlds that differ only in what is terminating take the same round: the same calls, answers, events, result and
      persisted object, and the same objects afterwards. */
  lemma PhasesDoNotMatter(cfg: Config, w: World, e: Env, gone: set<ObjectKey>)
    requires gone <= w.cluster.Keys
    ensures Reconcile(cfg, DimWorld(w, gone), e) == DimRound(Reconcile(cfg, w, e), gone)
  {
    if w.stored.Some? {
      DimWork(cfg, Ctx(w.stored.value, w, []), e, gone);
    }
  }
}

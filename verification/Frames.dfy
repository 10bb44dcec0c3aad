/** What each stage of a round leaves alone. */
module Frames {
  import opened Identity
  import opened Model
  import opened Protocol

  /** The working copy differs in nothing but its status, and there not in the tracked list. */
  ghost predicate SameButStatus(a: Object, b: Object) {
    && a == b.(status := a.status)
    && a.status.synced == b.status.synced
  }

  /** The conditions agree but for `HelmCRDs`. */
  ghost predicate SameButHelm(a: Conditions, b: Conditions) {
    forall t | t != HelmCRDs :: (t in a <==> t in b) && (t in a ==> a[t] == b[t])
  }

  lemma InitializeFrame(c: Ctx)
    ensures var p := Initialize(c);
            && p.ctx.world == c.world && p.ctx.log == c.log
            && SameButStatus(p.ctx.mem, c.mem)
            && (forall t | t in c.mem.status.conditions ::
                  t in p.ctx.mem.status.conditions
                  && p.ctx.mem.status.conditions[t] == c.mem.status.conditions[t])
            && (p.Go? ==> p.ctx.mem.status.state == c.mem.status.state
                          && (c.mem.deleting ==> c.mem.status.state == StateDeleting))
            && (p.Stop? ==> p.ctx.mem.status.state in {StateDeleting, StateProcessing})
  {
  }

  lemma JudgeFrame(c: Ctx, check: Verdict)
    ensures var p := JudgeCRDs(c, check);
            && p.ctx.world.stored == c.world.stored
            && SameButStatus(p.ctx.mem, c.mem)
            && SameButHelm(p.ctx.mem.status.conditions, c.mem.status.conditions)
            && (p.Go? ==> p.ctx.mem.status.state == c.mem.status.state)
            && p.ctx.mem.status.state in {c.mem.status.state, StateError}
  {
  }

  lemma EnsureFrame(c: Ctx, e: Env)
    ensures var p := EnsurePrerequisites(c, e);
            && p.ctx.world.stored == c.world.stored
            && SameButStatus(p.ctx.mem, c.mem)
            && SameButHelm(p.ctx.mem.status.conditions, c.mem.status.conditions)
            && (p.Go? ==> p.ctx.mem.status.state == c.mem.status.state)
            && p.ctx.mem.status.state in {c.mem.status.state, StateError}
  {
    if e.chart.Chart? {
      var check := if e.chart.crds * e.crdFaults != {} then Failed else e.crdCheck;
      JudgeFrame(CreateCRDs(c, e.chart.crds, e.crdFaults), check);
    }
  }

  lemma PrepareFrame(c: Ctx, e: Env)
    ensures var p := Prepare(c, e);
            && p.ctx.world.stored == c.world.stored
            && SameButStatus(p.ctx.mem, c.mem)
            && SameButHelm(p.ctx.mem.status.conditions, c.mem.status.conditions)
            && (p.Go? ==> p.ctx.mem.status.state == c.mem.status.state)
            && p.ctx.mem.status.state in {c.mem.status.state, StateError}
            && (p.Go? ==> e.spec.Some?)
  {
    EnsureFrame(c, e);
  }

  /** A Helm round goes on only with the CRDs reported ready, and a reported readiness is taken back only by an error. */
  lemma PrepareCRDs(c: Ctx, e: Env)
    ensures var p := Prepare(c, e);
            && (p.Go? && e.spec == Some(Helm) ==> IsTrue(p.ctx.mem.status.conditions, HelmCRDs))
            && (p.Stop? && !c.mem.deleting && IsTrue(c.mem.status.conditions, HelmCRDs) ==>
                  p.ctx.mem.status.state == StateError)
  {
  }

  lemma RenderFrame(c: Ctx, e: Env)
    ensures var p := RenderResources(c, e);
            && p.ctx.world == c.world && p.ctx.log == c.log
            && SameButStatus(p.ctx.mem, c.mem)
            && (p.Stop? ==> p.ctx.mem.status.state == StateError
                            && SameButHelm(p.ctx.mem.status.conditions, c.mem.status.conditions))
            && (p.Go? ==>
                  && p.ctx.mem.status.state == c.mem.status.state
                  && p.ctx.mem.status.conditions == c.mem.status.conditions[Resources := true]
                  && (c.mem.deleting || e.rendering.Rendered?))
  {
  }

  /** The persisted object as it is, or without the finalizer of the custom resource. */
  ghost predicate MayDropResourceFinalizer(before: Option<Object>, after: Option<Object>) {
    || after == before
    || (&& before.Some?
        && after == WithFinalizers(before.value, before.value.finalizers - {OfCustomResource}))
  }

  lemma CleanupFrame(c: Ctx, e: Env, keys: set<ObjectKey>)
    ensures var p := Cleanup(c, e, keys);
            && p.ctx.world.stored == c.world.stored
            && p.ctx.world.cluster.Keys == c.world.cluster.Keys
            && SameButStatus(p.ctx.mem, c.mem)
            && p.ctx.mem.status.conditions == c.mem.status.conditions
            && (p.Broken? ==> p.ctx.mem.status.state == StateError)
            && (!p.Broken? ==> p.ctx.mem == c.mem)
  {
  }

  lemma RemovalFrame(c: Ctx, e: Env)
    ensures var p := RemovePrerequisites(c, e);
            && p.ctx.world.stored == c.world.stored
            && p.ctx.world.cluster.Keys == c.world.cluster.Keys
            && SameButStatus(p.ctx.mem, c.mem)
            && p.ctx.mem.status.conditions == c.mem.status.conditions
            && (p.Broken? ==> p.ctx.mem.status.state == StateError)
            && (!p.Broken? ==> p.ctx.mem == c.mem)
  {
  }

  lemma PruneFrame(cfg: Config, c: Ctx, e: Env, keys: set<ObjectKey>)
    ensures var p := PruneDiff(cfg, c, e, keys);
            && MayDropResourceFinalizer(c.world.stored, p.ctx.world.stored)
            && (!c.mem.deleting ==> p.ctx.world.stored == c.world.stored)
            && p.ctx.world.cluster.Keys == c.world.cluster.Keys
            && SameButStatus(p.ctx.mem, c.mem)
            && p.ctx.mem.status.conditions == c.mem.status.conditions
            && p.ctx.mem.status.state in {c.mem.status.state, StateError}
            && (!p.Broken? ==> p.ctx.mem == c.mem)
            && (p.Clean? && c.mem.deleting && c.mem.resource.Some? && p.ctx.world.stored.Some? ==>
                  OfCustomResource !in p.ctx.world.stored.value.finalizers)
  {
    var c1 := if c.mem.deleting then PreDelete(c, e).ctx else c;
    CleanupFrame(c1, e, keys);
    RemovalFrame(DeleteResources(c, e, keys).ctx, e);
  }

  lemma PostRunFrame(c: Ctx, e: Env)
    ensures var p := PostRun(c, e);
            && p.ctx.mem == c.mem
            && c.log <= p.ctx.log
            && MayAddResourceFinalizer(c, p.ctx.world.stored)
            && (OfCustomResource in c.mem.finalizers ==> p.ctx.world.stored == c.world.stored)
  {
  }

  lemma CheckFrame(c: Ctx, e: Env)
    ensures var p := CheckReadiness(c, e);
            && p.ctx.mem == c.mem.(status := p.ctx.mem.status)
            && p.ctx.mem.status.synced == c.mem.status.synced
            && p.ctx.log == c.log + [ReadyChecked(e.check)]
            && p.ctx.world == c.world
            && (p.ctx.mem.status.state == StateReady ==> e.check == Passed)
  {
  }

  ghost predicate MayAddResourceFinalizer(c: Ctx, after: Option<Object>) {
    || after == c.world.stored
    || (&& c.world.stored.Some?
        && var o := c.world.stored.value;
           after == WithFinalizers(o, o.finalizers + c.mem.finalizers + {OfCustomResource}))
  }

  /** How a sync ends: failed, a new tracked list, a failed hook, not ready, newly ready, or nothing to write. */
  ghost predicate SyncOutcome(c: Ctx, e: Env, target: seq<Resource>, p: Stage) {
    var before, after := c.mem.status, p.ctx.mem.status;
    var failed := Keys(target) * e.applyFaults != {};
    var same := DiffOf(before.synced, target) == [];
    || (failed && p.Stop? && after == before.(state := StateError))
    || (!failed && !same && p.Stop? && after == Status(StateProcessing, before.conditions, target))
    || (!failed && same && p.Stop? && after == Status(StateError, before.conditions, target))
    || (!failed && same && p.Stop? && e.check != Passed
        && after == before.(state := if e.check == NotReady then StateProcessing else StateError))
    || (!failed && same && p.Stop? && e.check == Passed
        && after == Status(StateReady, before.conditions[Installation := true], before.synced))
    || (!failed && same && p.Go? && e.check == Passed && after == before
        && before.state == StateReady && IsTrue(before.conditions, Installation))
  }

  lemma FinishFrame(c: Ctx, e: Env, target: seq<Resource>)
    ensures var p := FinishSync(c, e, target);
            var before, after := c.mem.status, p.ctx.mem.status;
            && p.ctx.mem == c.mem.(status := after)
            && c.log <= p.ctx.log
            && MayAddResourceFinalizer(c, p.ctx.world.stored)
            && (OfCustomResource in c.mem.finalizers ==> p.ctx.world.stored == c.world.stored)
            && (|| (p.Stop? && after == Status(StateError, before.conditions, target))
                || (p.Stop? && e.check != Passed
                    && after == before.(state := if e.check == NotReady then StateProcessing else StateError))
                || (p.Stop? && e.check == Passed
                    && after == Status(StateReady, before.conditions[Installation := true], before.synced))
                || (p.Go? && e.check == Passed && after == before
                    && before.state == StateReady && IsTrue(before.conditions, Installation)))
  {
    PostRunFrame(c, e);
  }

  lemma SyncFrame(c: Ctx, e: Env, target: seq<Resource>)
    ensures var p := SyncResources(c, e, target);
            && p.ctx.mem == c.mem.(status := p.ctx.mem.status)
            && SyncOutcome(c, e, target, p)
            && c.log <= p.ctx.log
            && MayAddResourceFinalizer(c, p.ctx.world.stored)
            && (OfCustomResource in c.mem.finalizers ==> p.ctx.world.stored == c.world.stored)
  {
    var landed, failed := Landed(e, Keys(target)), Keys(target) * e.applyFaults;
    var applied := c.SetCluster(AfterCreates(c.world.cluster, landed)).Log(Applied(target, landed, failed));
    FinishFrame(applied, e, target);
  }
}

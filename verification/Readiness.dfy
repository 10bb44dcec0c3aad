/** What the Ready state means, in every persisted status of every run. */
module Readiness {
  import opened Identity
  import opened Model
  import opened Protocol
  import opened Frames
  import opened Runs
  import opened Convergence

  ghost predicate ReadyIsEarned(o: Object) {
    o.status.state == StateReady ==>
      IsTrue(o.status.conditions, Resources) && IsTrue(o.status.conditions, Installation)
  }

  ghost predicate ReadyHasCRDs(o: Object) {
    o.status.state == StateReady ==> IsTrue(o.status.conditions, HelmCRDs)
  }

  ghost predicate KeepsConditions(a: Conditions, b: Conditions) {
    forall t | t in {Resources, Installation} && IsTrue(a, t) :: IsTrue(b, t)
  }

  /** How one round may change the status. */
  ghost predicate StatusStep(o: Object, o': Object) {
    && KeepsConditions(o.status.conditions, o'.status.conditions)
    && (ReadyIsEarned(o) ==> ReadyIsEarned(o'))
  }

  ghost predicate OnlyHelm(e: Env) {
    e.spec in {None, Some(Helm)}
  }

  /** The status that the prepared copy of `o` carries into pruning. */
  ghost predicate Carries(c: Ctx, o: Object) {
    && c.world.stored == Some(o)
    && KeepsConditions(o.status.conditions, c.mem.status.conditions)
    && IsTrue(c.mem.status.conditions, Resources)
    && c.mem.status.state == o.status.state
  }

  lemma SyncStatusStep(c: Ctx, e: Env, target: seq<Resource>, o: Object)
    requires Carries(c, o)
    ensures var r := Conclude(SyncResources(c, e, target), e);
            r.world.stored.Some? ==>
              && StatusStep(o, r.world.stored.value)
              && (ReadyHasCRDs(o) && IsTrue(c.mem.status.conditions, HelmCRDs) ==>
                    ReadyHasCRDs(r.world.stored.value))
  {
    SyncFrame(c, e, target);
  }

  lemma PrunedStatusStep(cfg: Config, c: Ctx, e: Env, target: seq<Resource>, keys: set<ObjectKey>, o: Object)
    requires Carries(c, o)
    requires c.mem.deleting ==> o.status.state == StateDeleting
    ensures var r := AfterPrune(PruneDiff(cfg, c, e, keys), e, target);
            r.world.stored.Some? ==>
              && StatusStep(o, r.world.stored.value)
              && (ReadyHasCRDs(o) && IsTrue(c.mem.status.conditions, HelmCRDs) ==>
                    ReadyHasCRDs(r.world.stored.value))
  {
    var p := PruneDiff(cfg, c, e, keys);
    PruneFrame(cfg, c, e, keys);
    if p.Clean? && !c.mem.deleting {
      SyncStatusStep(p.ctx, e, target, o);
    }
  }

  lemma RenderedStatusStep(cfg: Config, c: Ctx, e: Env, o: Object)
    requires c.world.stored == Some(o) && c.mem.deleting == o.deleting
    requires KeepsConditions(o.status.conditions, c.mem.status.conditions) && c.mem.status.state == o.status.state
    requires c.mem.deleting ==> o.status.state == StateDeleting
    ensures var r := AfterPrepare(cfg, c, e);
            r.world.stored.Some? ==>
              && StatusStep(o, r.world.stored.value)
              && (ReadyHasCRDs(o) && IsTrue(c.mem.status.conditions, HelmCRDs) ==>
                    ReadyHasCRDs(r.world.stored.value))
  {
    RenderFrame(c, e);
    var ready := RenderResources(c, e);
    if ready.Go? {
      var target := Target(c.mem.deleting, e);
      PrunedStatusStep(cfg, ready.ctx, e, target, Dropped(cfg.matcher, c.mem.status.synced, target), o);
    }
  }

  lemma RoundStatusStep(cfg: Config, w: World, e: Env)
    requires w.stored.Some?
    ensures var r := Reconcile(cfg, w, e);
            r.world.stored.Some? ==>
              && StatusStep(w.stored.value, r.world.stored.value)
              && (OnlyHelm(e) && ReadyHasCRDs(w.stored.value) ==> ReadyHasCRDs(r.world.stored.value))
  {
    if e.get && !e.skip {
      var c := Ctx(w.stored.value, w, []);
      var init := Initialize(c);
      InitializeFrame(c);
      if init.Go? && (c.mem.deleting || Own in c.mem.finalizers) {
        var prep := Prepare(init.ctx, e);
        PrepareFrame(init.ctx, e);
        PrepareCRDs(init.ctx, e);
        if prep.Go? {
          RenderedStatusStep(cfg, prep.ctx, e, w.stored.value);
        }
      }
    }
  }

  // ---------------------------------------------------------------- whole runs

  /** Ready implies that the resources are known and the installation succeeded. */
  lemma {:induction false} ReadyInvariant(cfg: Config, s: System, moves: seq<Move>)
    requires Fresh(s) && Legal(cfg, s, moves)
    ensures Exec(cfg, s, moves).world.stored.Some? ==> ReadyIsEarned(Exec(cfg, s, moves).world.stored.value)
  {
    if moves != [] {
      var n := |moves| - 1;
      var before := At(cfg, s, moves, n);
      LegalPrefix(cfg, s, moves, n);
      ReadyInvariant(cfg, s, moves[..n]);
      assert Allowed(Exec(cfg, s, moves[..n]), moves[n]);
      if moves[n].Reconciled? && before.world.stored.Some? {
        RoundStatusStep(cfg, before.world, moves[n].env);
      }
    }
  }

  /** A Resources or Installation condition that is True never reverts while the object exists. */
  lemma {:induction false} ConditionsNeverRevert(cfg: Config, s: System, moves: seq<Move>, i: nat, j: nat,
                                                 t: ConditionType)
    requires Legal(cfg, s, moves) && i <= j <= |moves| && t in {Resources, Installation}
    requires At(cfg, s, moves, i).world.stored.Some? && At(cfg, s, moves, j).world.stored.Some?
    requires IsTrue(At(cfg, s, moves, i).world.stored.value.status.conditions, t)
    ensures IsTrue(At(cfg, s, moves, j).world.stored.value.status.conditions, t)
    decreases j
  {
    if i < j {
      var before := At(cfg, s, moves, j - 1);
      NextState(cfg, s, moves, j - 1);
      assert Allowed(Exec(cfg, s, moves[..j - 1]), moves[j - 1]);
      assert before.world.stored.Some?;
      ConditionsNeverRevert(cfg, s, moves, i, j - 1, t);
      if moves[j - 1].Reconciled? {
        RoundStatusStep(cfg, before.world, moves[j - 1].env);
      }
    }
  }

  ghost predicate UsesMode(moves: seq<Move>, mode: RenderMode) {
    forall m | m in moves && m.Reconciled? :: m.env.spec in {None, Some(mode)}
  }

  lemma {:induction false} HelmReadyHasCRDs(cfg: Config, s: System, moves: seq<Move>)
    requires Fresh(s) && Legal(cfg, s, moves) && UsesMode(moves, Helm)
    ensures Exec(cfg, s, moves).world.stored.Some? ==> ReadyHasCRDs(Exec(cfg, s, moves).world.stored.value)
  {
    if moves != [] {
      var n := |moves| - 1;
      var before := At(cfg, s, moves, n);
      LegalPrefix(cfg, s, moves, n);
      HelmReadyHasCRDs(cfg, s, moves[..n]);
      assert Allowed(Exec(cfg, s, moves[..n]), moves[n]);
      if moves[n].Reconciled? && before.world.stored.Some? {
        assert moves[n] in moves;
        RoundStatusStep(cfg, before.world, moves[n].env);
      }
    }
  }

  // ---------------------------------------------------------------- entering Ready

  /** What one round must have seen to write Ready: no deletion, the target applied in full and equal to the tracked list,
      the custom resource in place with its finalizer, and a passed readiness check. */
  ghost predicate Entry(cfg: Config, w: World, e: Env, after: World) {
    && w.stored.Some? && after.stored.Some?
    && var o, o' := w.stored.value, after.stored.value;
    && !o.deleting && Own in o.finalizers
    && e.rendering.Rendered? && var target := e.rendering.target;
    && Keys(target) * e.applyFaults == {}
    && DiffOf(o.status.synced, target) == []
    && Keys(target) <= after.cluster.Keys
    && (o.resource.Some? ==> o.resource.value in after.cluster && OfCustomResource in o'.finalizers)
    && e.check == Passed
    && o'.status.synced == o.status.synced
  }

  lemma SyncEntersReady(c: Ctx, e: Env, target: seq<Resource>)
    requires c.world.stored.Some? && SameButStatus(c.mem, c.world.stored.value)
    requires c.mem.status.state != StateReady && !c.mem.deleting
    ensures var p := SyncResources(c, e, target);
            p.ctx.mem.status.state == StateReady ==>
              && Keys(target) * e.applyFaults == {}
              && DiffOf(c.mem.status.synced, target) == []
              && e.check == Passed
              && p.ctx.mem.status.synced == c.mem.status.synced
              && Keys(target) <= p.ctx.world.cluster.Keys
              && p.ctx.world.stored.Some?
              && (c.mem.resource.Some? ==> c.mem.resource.value in p.ctx.world.cluster
                                           && OfCustomResource in p.ctx.world.stored.value.finalizers)
  {
    var landed, failed := Landed(e, Keys(target)), Keys(target) * e.applyFaults;
    var applied := c.SetCluster(AfterCreates(c.world.cluster, landed)).Log(Applied(target, landed, failed));
    assert failed == {} ==> landed == Keys(target);
    PostRunFrame(applied, e);
  }

  /** A round that ends with a ready state it did not find has just written it. */
  lemma ReadyIsWritten(s: Stage, e: Env)
    requires s.ctx.world.stored.Some? && s.ctx.world.stored.value.status.state != StateReady
    ensures var r := Conclude(s, e);
            r.world.stored.Some? && r.world.stored.value.status.state == StateReady ==>
              && s.ctx.mem.status.state == StateReady
              && r.world.cluster == s.ctx.world.cluster
              && r.world.stored.value.status == s.ctx.mem.status
              && r.world.stored.value.finalizers == s.ctx.world.stored.value.finalizers
  {
  }

  lemma ConcludeEntersReady(cfg: Config, w: World, c: Ctx, e: Env, target: seq<Resource>)
    requires c.world.stored.Some? && SameButStatus(c.mem, c.world.stored.value) && w.stored == c.world.stored
    requires c.mem.status.state != StateReady && c.world.stored.value.status.state != StateReady
    requires !c.mem.deleting && e.rendering == Rendered(target) && Own in c.mem.finalizers
    ensures var r := Conclude(SyncResources(c, e, target), e);
            r.world.stored.Some? && r.world.stored.value.status.state == StateReady ==>
              Entry(cfg, w, e, r.world)
  {
    var s := SyncResources(c, e, target);
    SyncEntersReady(c, e, target);
    SyncFrame(c, e, target);
    ReadyIsWritten(s, e);
  }

  lemma PrunedEntersReady(cfg: Config, c: Ctx, e: Env, target: seq<Resource>, keys: set<ObjectKey>)
    requires c.world.stored.Some? && SameButStatus(c.mem, c.world.stored.value)
    requires c.mem.status.state != StateReady && c.world.stored.value.status.state != StateReady
    requires !c.mem.deleting ==> e.rendering == Rendered(target) && Own in c.mem.finalizers
    ensures var r := AfterPrune(PruneDiff(cfg, c, e, keys), e, target);
            r.world.stored.Some? && r.world.stored.value.status.state == StateReady ==>
              Entry(cfg, c.world, e, r.world)
  {
    var p := PruneDiff(cfg, c, e, keys);
    PruneFrame(cfg, c, e, keys);
    if p.Clean? && !c.mem.deleting {
      ConcludeEntersReady(cfg, c.world, p.ctx, e, target);
    }
  }

  lemma RoundEntersReady(cfg: Config, w: World, e: Env)
    requires w.stored.Some?
    requires w.stored.value.status.state != StateReady
    ensures var after := Reconcile(cfg, w, e).world;
            after.stored.Some? && after.stored.value.status.state == StateReady ==> Entry(cfg, w, e, after)
  {
    if e.get && !e.skip {
      var c := Ctx(w.stored.value, w, []);
      var init := Initialize(c);
      InitializeFrame(c);
      if init.Go? && (c.mem.deleting || Own in c.mem.finalizers) {
        var prep := Prepare(init.ctx, e);
        PrepareFrame(init.ctx, e);
        if prep.Go? {
          var ready := RenderResources(prep.ctx, e);
          RenderFrame(prep.ctx, e);
          if ready.Go? {
            var target := Target(c.mem.deleting, e);
            var keys := Dropped(cfg.matcher, prep.ctx.mem.status.synced, target);
            PrunedEntersReady(cfg, ready.ctx, e, target, keys);
          }
        }
      }
    }
  }

  /** In every run Ready is entered only by a round that satisfies `Entry`. */
  lemma ReadyIsEnteredByEntry(cfg: Config, s: System, moves: seq<Move>, n: nat)
    requires Legal(cfg, s, moves) && n < |moves|
    requires At(cfg, s, moves, n).world.stored.Some? && At(cfg, s, moves, n + 1).world.stored.Some?
    requires At(cfg, s, moves, n).world.stored.value.status.state != StateReady
    requires At(cfg, s, moves, n + 1).world.stored.value.status.state == StateReady
    ensures moves[n].Reconciled?
    ensures Entry(cfg, At(cfg, s, moves, n).world, moves[n].env, At(cfg, s, moves, n + 1).world)
  {
    NextState(cfg, s, moves, n);
    assert Allowed(Exec(cfg, s, moves[..n]), moves[n]);
    RoundEntersReady(cfg, At(cfg, s, moves, n).world, moves[n].env);
  }

  // ---------------------------------------------------------------- Ready and the chart's CRDs

  /** A new object whose target is empty, after one, two and three rounds in which nothing goes wrong. */
  ghost predicate OnItsWay(w: World, rounds: nat) {
    && w.cluster == map[] && w.stored.Some?
    && var o := w.stored.value;
    && !o.deleting && o.resource == None && o.status.synced == [] && HelmCRDs !in o.status.conditions
    && (rounds == 0 ==> o.status == NewStatus)
    && (rounds >= 1 ==> o.status.state != StateUnset)
    && (rounds >= 2 ==> Own in o.finalizers)
    && (rounds >= 3 ==> o.status.state == StateReady)
  }

  lemma EmptyTargetStarts(cfg: Config, w: World, mode: RenderMode, rounds: nat)
    requires mode != Helm && OnItsWay(w, rounds) && rounds < 2 && w.stored.value.finalizers == {}
    ensures OnItsWay(Reconcile(cfg, w, CalmEnv(mode, {}, [])).world, rounds + 1)
    ensures rounds == 0 ==> Reconcile(cfg, w, CalmEnv(mode, {}, [])).world.stored.value.finalizers == {}
  {
  }

  lemma EmptyTargetEnds(cfg: Config, w: World, mode: RenderMode)
    requires mode != Helm && OnItsWay(w, 2)
    ensures OnItsWay(Reconcile(cfg, w, CalmEnv(mode, {}, [])).world, 3)
  {
    SyncingRound(cfg, w, Goal(mode, {}, []));
  }

  lemma {:induction false} EmptyTargetGetsReady(cfg: Config, s: System, moves: seq<Move>, mode: RenderMode)
    requires mode != Helm && |moves| <= 3 && OnItsWay(s.world, 0) && s.world.stored.value.finalizers == {}
    requires forall m | m in moves :: m == Reconciled(CalmEnv(mode, {}, []))
    ensures OnItsWay(Exec(cfg, s, moves).world, |moves|)
    ensures |moves| < 2 ==> Exec(cfg, s, moves).world.stored.value.finalizers == {}
  {
    if moves != [] {
      var n := |moves| - 1;
      assert moves[n] in moves && forall m | m in moves[..n] :: m in moves;
      EmptyTargetGetsReady(cfg, s, moves[..n], mode);
      if n < 2 {
        EmptyTargetStarts(cfg, Exec(cfg, s, moves[..n]).world, mode, n);
      } else {
        EmptyTargetEnds(cfg, Exec(cfg, s, moves[..n]).world, mode);
      }
    }
  }

  /** An object without resources becomes Ready in three rounds that never look at `HelmCRDs`. */
  lemma ReadyWithoutCRDs(cfg: Config, mode: RenderMode) returns (s: System, moves: seq<Move>)
    requires mode != Helm
    ensures Fresh(s) && Legal(cfg, s, moves) && UsesMode(moves, mode)
    ensures Exec(cfg, s, moves).world.stored.Some? && !ReadyHasCRDs(Exec(cfg, s, moves).world.stored.value)
  {
    s := System(World(Some(Object(NewStatus, {}, false, None, 0)), map[]), {}, {}, {}, []);
    moves := seq(3, _ => Reconciled(CalmEnv(mode, {}, [])));
    EmptyTargetGetsReady(cfg, s, moves, mode);
  }

  /** Ready promises the chart's CRDs in every run that renders in one mode, exactly when that mode is Helm. */
  lemma ReadyMeansCRDsIffHelm(cfg: Config, mode: RenderMode)
    ensures (forall s, moves | Fresh(s) && Legal(cfg, s, moves) && UsesMode(moves, mode) ::
               Exec(cfg, s, moves).world.stored.Some? ==> ReadyHasCRDs(Exec(cfg, s, moves).world.stored.value))
            <==> mode == Helm
  {
    if mode == Helm {
      forall s, moves | Fresh(s) && Legal(cfg, s, moves) && UsesMode(moves, mode)
        ensures Exec(cfg, s, moves).world.stored.Some? ==> ReadyHasCRDs(Exec(cfg, s, moves).world.stored.value)
      {
        HelmReadyHasCRDs(cfg, s, moves);
      }
    } else {
      var s, moves := ReadyWithoutCRDs(cfg, mode);
    }
  }
}

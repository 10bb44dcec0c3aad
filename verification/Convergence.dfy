/** Convergence in a calm surrounding, with deletes that take any number of rounds: with a fixed spec the loop reaches Ready and
    then changes nothing. */
module Convergence {
  import opened Identity
  import opened Model
  import opened Protocol
  import opened Frames
  import opened Calm
  import opened Iteration
  import R = Results

  /** What the object is to become: the mode, chart CRDs and target are fixed. */
  datatype Goal = Goal(mode: RenderMode, crds: set<ObjectKey>, target: seq<Resource>) {
    function Env(): Env {
      CalmEnv(mode, crds, target)
    }
  }

  /** An object that nobody deletes. */
  ghost predicate Steady(w: World) {
    w.stored.Some? && !w.stored.value.deleting
  }

  ghost predicate Prepared(o: Object, mode: RenderMode) {
    o.status.state != StateUnset && Own in o.finalizers && Registered(o, mode)
  }

  ghost predicate IsReady(o: Object) {
    o.status.state == StateReady && IsTrue(o.status.conditions, Installation)
  }

  ghost predicate Guarded(o: Object) {
    o.resource.Some? ==> OfCustomResource in o.finalizers
  }

  /** What the goal wants in the cluster. */
  function Wanted(o: Object, g: Goal): set<ObjectKey> {
    Keys(g.target) + Reinstalled(o, g.mode, g.crds) + ResourceOf(o)
  }

  function Unwanted(cfg: Config, o: Object, g: Goal): set<ObjectKey> {
    Dropped(cfg.matcher, o.status.synced, g.target)
  }

  /** There is something to prune. */
  ghost predicate Prunable(cfg: Config, w: World, g: Goal)
    requires w.stored.Some?
  {
    !(w.cluster.Keys !! Unwanted(cfg, w.stored.value, g))
  }

  function Changed(o: Object, g: Goal): bool {
    DiffOf(o.status.synced, g.target) != []
  }

  /** The chart does not install what the same spec drops from the tracked list. */
  ghost predicate Compatible(cfg: Config, o: Object, g: Goal) {
    Reinstalled(o, g.mode, g.crds) !! Unwanted(cfg, o, g)
  }

  /** The hook does not create what the comparison keeps in the list to be pruned. That can only happen to lists that repeat an
      identifier or have slashes. */
  ghost predicate SparesResource(cfg: Config, o: Object, g: Goal) {
    !Changed(o, g) ==> ResourceOf(o) !! Unwanted(cfg, o, g)
  }

  // ---------------------------------------------------------------- one round, exactly

  /** What a preparing round leaves. */
  ghost predicate PreparedFurther(o: Object, o': Object, g: Goal) {
    && !o'.deleting && o'.resource == o.resource && o'.status.synced == o.status.synced
    && o.finalizers <= o'.finalizers && (OfCustomResource in o'.finalizers <==> OfCustomResource in o.finalizers)
    && (IsReady(o) <==> IsReady(o'))
    && (IsTrue(o.status.conditions, HelmCRDs) <==> IsTrue(o'.status.conditions, HelmCRDs))
    && Unprepared(o', g) < Unprepared(o, g)
  }

  function Unprepared(o: Object, g: Goal): nat {
    Bit(o.status.state == StateUnset) + Bit(Own !in o.finalizers) + Bit(g.mode == Helm && HelmCRDs !in o.status.conditions)
  }

  /** The first rounds only prepare the object. */
  lemma PreparingRound(cfg: Config, w: World, g: Goal)
    requires Steady(w) && !Prepared(w.stored.value, g.mode)
    ensures var o := w.stored.value;
            var r := Reconcile(cfg, w, g.Env());
            && r.result == Requeue
            && r.world.cluster == w.cluster && r.world.stored.Some?
            && PreparedFurther(o, r.world.stored.value, g)
  {
  }

  /** A prepared round that has something to prune deletes it and waits. */
  lemma PruningRound(cfg: Config, w: World, g: Goal)
    requires Settled(w) && Steady(w) && Prepared(w.stored.value, g.mode)
    requires var o := w.stored.value; !(w.cluster.Keys + Reinstalled(o, g.mode, g.crds) !! Unwanted(cfg, o, g))
    ensures var o := w.stored.value;
            var r := Reconcile(cfg, w, g.Env());
            && r.result == Requeue
            && r.world.stored == w.stored
            && r.world.cluster.Keys == w.cluster.Keys + Reinstalled(o, g.mode, g.crds)
            && Alive(r.world) == w.cluster.Keys + Reinstalled(o, g.mode, g.crds) - Unwanted(cfg, o, g)
  {
    var c := CalmUntilPrune(cfg, w, g.mode, g.crds, g.target);
    CalmCleanup(c, g.Env(), Dropped(cfg.matcher, c.mem.status.synced, g.target));
    SettledKeys(Reconcile(cfg, w, g.Env()).world);
  }

  /** The calm hook puts the custom resource and its finalizer in place. */
  lemma CalmPostRun(c: Ctx, g: Goal)
    requires Settled(c.world) && c.world.stored.Some? && SameButStatus(c.mem, c.world.stored.value)
    requires !c.mem.deleting
    ensures var p := PostRun(c, g.Env());
            && p.Go? && p.ctx.mem == c.mem
            && Settled(p.ctx.world)
            && p.ctx.world.cluster.Keys == c.world.cluster.Keys + ResourceOf(c.mem)
            && p.ctx.world.stored.Some?
            && var o, o' := c.world.stored.value, p.ctx.world.stored.value;
            && Guarded(o')
            && (c.mem.resource.None? || OfCustomResource in o.finalizers ==> o' == o)
            && o.finalizers <= o'.finalizers
            && o' == o.(finalizers := o'.finalizers, version := o'.version)
  {
  }

  /** The result of syncing an object whose conditions in memory are `conditions`. */
  ghost predicate SyncedTo(o: Object, conditions: Conditions, g: Goal, after: World, result: Result) {
    && after.stored.Some?
    && var o' := after.stored.value;
    && o' == o.(status := o'.status, finalizers := o'.finalizers, version := o'.version)
    && o.finalizers <= o'.finalizers
    && (if Changed(o, g) then
          && result == Requeue
          && o'.status == Status(StateProcessing, conditions, g.target)
          && o'.finalizers == o.finalizers
        else if IsReady(o) then
          && result == OnSuccess
          && o'.status == o.status
          && Guarded(o') && ResourceOf(o') <= after.cluster.Keys
          && (o.resource.None? || OfCustomResource in o.finalizers ==> o' == o)
        else
          && result == Requeue
          && o'.status == Status(StateReady, conditions[Installation := true], o.status.synced)
          && Guarded(o') && ResourceOf(o') <= after.cluster.Keys)
  }

  lemma CalmFinish(c: Ctx, g: Goal)
    requires Settled(c.world) && c.world.stored.Some? && SameButStatus(c.mem, c.world.stored.value)
    requires !c.mem.deleting && c.mem.status.state == c.world.stored.value.status.state
    requires IsTrue(c.mem.status.conditions, Installation)
             <==> IsTrue(c.world.stored.value.status.conditions, Installation)
    requires !Changed(c.world.stored.value, g)
    ensures var o := c.world.stored.value;
            var r := Conclude(FinishSync(c, g.Env(), g.target), g.Env());
            && SyncedTo(o, c.mem.status.conditions, g, r.world, r.result)
            && Settled(r.world)
            && r.world.cluster.Keys == c.world.cluster.Keys + ResourceOf(o)
  {
    CalmPostRun(c, g);
  }

  lemma CalmSync(c: Ctx, g: Goal)
    requires Settled(c.world) && c.world.stored.Some? && SameButStatus(c.mem, c.world.stored.value)
    requires !c.mem.deleting && c.mem.status.state == c.world.stored.value.status.state
    requires IsTrue(c.mem.status.conditions, Installation)
             <==> IsTrue(c.world.stored.value.status.conditions, Installation)
    ensures var o := c.world.stored.value;
            var r := Conclude(SyncResources(c, g.Env(), g.target), g.Env());
            && SyncedTo(o, c.mem.status.conditions, g, r.world, r.result)
            && Settled(r.world)
            && c.world.cluster.Keys + Keys(g.target) <= r.world.cluster.Keys
            && r.world.cluster.Keys <= c.world.cluster.Keys + Keys(g.target) + ResourceOf(o)
  {
    var e, keys := g.Env(), Keys(g.target);
    assert Landed(e, keys) == keys && keys * e.applyFaults == {};
    var applied := c.SetCluster(AfterCreates(c.world.cluster, keys)).Log(Applied(g.target, keys, {}));
    if !Changed(c.world.stored.value, g) {
      CalmFinish(applied, g);
    }
  }

  /** A prepared round with nothing to prune. */
  lemma SyncingRound(cfg: Config, w: World, g: Goal)
    requires Settled(w) && Steady(w) && Prepared(w.stored.value, g.mode)
    requires var o := w.stored.value; w.cluster.Keys + Reinstalled(o, g.mode, g.crds) !! Unwanted(cfg, o, g)
    ensures var o := w.stored.value;
            var r := Reconcile(cfg, w, g.Env());
            && SyncedTo(o, ConditionsOnceRendered(o, g.mode), g, r.world, r.result)
            && Settled(r.world)
            && w.cluster.Keys + Reinstalled(o, g.mode, g.crds) + Keys(g.target) <= r.world.cluster.Keys
            && r.world.cluster.Keys <= w.cluster.Keys + Wanted(o, g)
  {
    var c := CalmUntilPrune(cfg, w, g.mode, g.crds, g.target);
    var keys := Dropped(cfg.matcher, c.mem.status.synced, g.target);
    CalmCleanup(c, g.Env(), keys);
    CalmSync(Cleanup(c, g.Env(), keys).ctx, g);
  }

  lemma DroppedMissesTarget(m: Matcher, current: seq<Resource>, target: seq<Resource>)
    ensures Dropped(m, current, target) !! Keys(target)
  {
    forall k | k in Dropped(m, current, target) ensures k !in Keys(target) {
      var r :| r in current && r.MatchKey(m) !in MatchKeys(m, target) && r.Key() == k;
      forall t | t in target ensures t.Key() != r.Key() {
        assert t.MatchKey(m) in MatchKeys(m, target);
      }
    }
  }

  lemma SameListHasNoDiff(target: seq<Resource>)
    ensures DiffOf(target, target) == []
    ensures forall m :: Dropped(m, target, target) == {}
  {
    DiffEmptyIffCovered(target, target);
  }

  // ---------------------------------------------------------------- one slow turn

  /** How a slow turn leaves a prepared object that has nothing to prune. */
  ghost predicate Synced(w: World, g: Goal, after: World)
    requires w.stored.Some?
  {
    && after.stored.Some?
    && var o, o' := w.stored.value, after.stored.value;
    && !o'.deleting && o'.resource == o.resource && o.finalizers <= o'.finalizers
    && Prepared(o', g.mode) && Reinstalled(o', g.mode, g.crds) <= Reinstalled(o, g.mode, g.crds)
    && after.cluster.Keys <= w.cluster.Keys + Wanted(o, g) && Terminated(after) <= Terminated(w)
    && w.cluster.Keys + Reinstalled(o, g.mode, g.crds) + Keys(g.target) - Terminated(w) <= Alive(after)
    && (if Changed(o, g) then
          o'.status.synced == g.target
        else
          && o'.status.synced == o.status.synced && IsReady(o')
          && Guarded(o') && ResourceOf(o) - Terminated(w) <= Alive(after))
  }

  lemma AliveOrTerminated(w: World)
    ensures w.cluster.Keys == Alive(w) + Terminated(w) && Alive(w) !! Terminated(w)
  {
    forall k | k in w.cluster.Keys ensures k in Alive(w) + Terminated(w) {
      assert w.cluster[k] == Live || w.cluster[k] == Terminating;
    }
  }

  lemma NothingNewTerminates(w: World, after: World, keys: set<ObjectKey>)
    requires after.cluster.Keys <= keys && keys - Terminated(w) <= Alive(after)
    ensures Terminated(after) <= Terminated(w)
  {
    forall k | k in Terminated(after) ensures k in Terminated(w) {
      assert k !in Alive(after);
    }
  }

  lemma SyncedLater(w: World, g: Goal, round: Round, first: Round, after: World, conditions: Conditions)
    requires Steady(w) && Prepared(w.stored.value, g.mode) && Settled(first.world) && Follows(w, round, first, after)
    requires SyncedTo(w.stored.value, conditions, g, first.world, first.result)
    requires g.mode == Helm ==> IsTrue(conditions, HelmCRDs)
    requires var o := w.stored.value;
             && w.cluster.Keys + Reinstalled(o, g.mode, g.crds) + Keys(g.target) <= first.world.cluster.Keys
             && first.world.cluster.Keys <= w.cluster.Keys + Wanted(o, g)
    ensures Synced(w, g, after)
  {
    SettledKeys(first.world);
    NothingNewTerminates(w, after, first.world.cluster.Keys);
  }

  lemma TurnSyncs(cfg: Config, w: World, g: Goal, gone: set<ObjectKey>)
    requires Steady(w) && Prepared(w.stored.value, g.mode) && Compatible(cfg, w.stored.value, g) && !Prunable(cfg, w, g)
    ensures Synced(w, g, SlowTurn(cfg, w, g.Env(), gone))
    ensures Reconcile(cfg, w, g.Env()).result == OnSuccess <==> !Changed(w.stored.value, g) && IsReady(w.stored.value)
  {
    var o, first := w.stored.value, Reconcile(cfg, Revive(w), g.Env());
    SlowTurnFollows(cfg, w, g.Env(), gone);
    SyncingRound(cfg, Revive(w), g);
    SyncedLater(w, g, Reconcile(cfg, w, g.Env()), first, SlowTurn(cfg, w, g.Env(), gone), ConditionsOnceRendered(o, g.mode));
  }

  lemma TurnPrunes(cfg: Config, w: World, g: Goal, gone: set<ObjectKey>)
    requires Steady(w) && Prepared(w.stored.value, g.mode) && (Prunable(cfg, w, g) || !Compatible(cfg, w.stored.value, g))
    ensures var after := SlowTurn(cfg, w, g.Env(), gone);
            && Reconcile(cfg, w, g.Env()).result == Requeue
            && after.stored == w.stored
            && Alive(after) !! Unwanted(cfg, w.stored.value, g)
  {
    SlowTurnFollows(cfg, w, g.Env(), gone);
    PruningRound(cfg, Revive(w), g);
  }

  lemma TurnPrepares(cfg: Config, w: World, g: Goal, gone: set<ObjectKey>)
    requires Steady(w) && !Prepared(w.stored.value, g.mode)
    ensures var after := SlowTurn(cfg, w, g.Env(), gone);
            && Reconcile(cfg, w, g.Env()).result == Requeue
            && after.stored.Some? && PreparedFurther(w.stored.value, after.stored.value, g)
            && after.cluster.Keys <= w.cluster.Keys && Alive(after) == Alive(w)
  {
    PreparingRound(cfg, w, g);
  }

  // ---------------------------------------------------------------- success

  /** How far the object is from a round that succeeds. Pruning comes first, getting ready may bring back something to prune, and
      a new list takes Ready away. */
  ghost function Lag(cfg: Config, w: World, g: Goal): nat
    requires w.stored.Some?
  {
    var o := w.stored.value;
    Unprepared(o, g) + 3 * Bit(Changed(o, g)) + 2 * Bit(!IsReady(o)) + Bit(Prunable(cfg, w, g))
  }

  ghost predicate Underway(cfg: Config, w: World, g: Goal) {
    Steady(w) && Compatible(cfg, w.stored.value, g)
  }

  lemma SyncingLowersLag(cfg: Config, w: World, g: Goal, after: World)
    requires Underway(cfg, w, g) && Prepared(w.stored.value, g.mode) && !Prunable(cfg, w, g) && Synced(w, g, after)
    ensures Underway(cfg, after, g)
    ensures Changed(w.stored.value, g) || !IsReady(w.stored.value) ==> Lag(cfg, after, g) < Lag(cfg, w, g)
  {
    SameListHasNoDiff(g.target);
  }

  /** A round either succeeds, or the next state is no farther from success, and closer if nothing is left terminating. */
  lemma TurnLowersLag(cfg: Config, w: World, g: Goal, gone: set<ObjectKey>)
    requires Underway(cfg, w, g)
    ensures var after := SlowTurn(cfg, w, g.Env(), gone);
            && Underway(cfg, after, g)
            && (Reconcile(cfg, w, g.Env()).result != OnSuccess ==>
                  && 0 < Lag(cfg, w, g) && Lag(cfg, after, g) <= Lag(cfg, w, g)
                  && (Settled(after) ==> Lag(cfg, after, g) < Lag(cfg, w, g)))
  {
    var after := SlowTurn(cfg, w, g.Env(), gone);
    if !Prepared(w.stored.value, g.mode) {
      TurnPrepares(cfg, w, g, gone);
    } else if Prunable(cfg, w, g) {
      TurnPrunes(cfg, w, g, gone);
      SettledKeys(after);
    } else {
      TurnSyncs(cfg, w, g, gone);
      SyncingLowersLag(cfg, w, g, after);
    }
  }

  /** The round after those slow turns succeeds. */
  ghost predicate Succeeds(cfg: Config, w: World, g: Goal, gone: seq<set<ObjectKey>>) {
    Reconcile(cfg, SlowTurns(cfg, w, g.Env(), gone), g.Env()).result == OnSuccess
  }

  lemma LagIsAtMost(cfg: Config, w: World, g: Goal)
    requires w.stored.Some?
    ensures Lag(cfg, w, g) <= 9
  {
  }

  ghost function IsUnderway(cfg: Config, g: Goal): World -> bool {
    (w: World) => Underway(cfg, w, g)
  }

  ghost function LagOf(cfg: Config, g: Goal): World -> nat {
    (w: World) => if w.stored.None? then 0 else Lag(cfg, w, g)
  }

  ghost function SuccessAt(cfg: Config, g: Goal): World -> bool {
    (w: World) => Reconcile(cfg, w, g.Env()).result == OnSuccess
  }

  lemma CalmRoundsLag(cfg: Config, g: Goal)
    ensures Lags(cfg, g.Env(), IsUnderway(cfg, g), LagOf(cfg, g), SuccessAt(cfg, g))
  {
    forall w, gone | IsUnderway(cfg, g)(w)
      ensures Lagging(IsUnderway(cfg, g), LagOf(cfg, g), SuccessAt(cfg, g)(w), w, SlowTurn(cfg, w, g.Env(), gone))
    {
      TurnLowersLag(cfg, w, g, gone);
    }
  }

  /** A round of an object that nobody deletes asks to be repeated or succeeds. */
  lemma SteadyComesBack(cfg: Config, w: World, g: Goal)
    requires Steady(w)
    ensures Reconcile(cfg, w, g.Env()).result in {Requeue, OnSuccess}
  {
    R.ResultIff(cfg, w, g.Env());
  }

  /** Among slow turns of which nine leave nothing terminating, one round succeeds, or the next one does; and every round before
      the first success asked to be repeated. */
  lemma SuccessRecurs(cfg: Config, w: World, g: Goal, gone: seq<set<ObjectKey>>) returns (i: nat)
    requires Underway(cfg, w, g) && Completed(cfg, w, g.Env(), gone) >= 9
    ensures i <= |gone| && Succeeds(cfg, w, g, gone[..i])
    ensures forall j | 0 <= j < i :: Reconcile(cfg, SlowTurns(cfg, w, g.Env(), gone[..j]), g.Env()).result == Requeue
  {
    CalmRoundsLag(cfg, g);
    LagIsAtMost(cfg, w, g);
    i := SuccessWithin(cfg, w, g.Env(), gone, IsUnderway(cfg, g), LagOf(cfg, g), SuccessAt(cfg, g));
    forall j | 0 <= j < i ensures Reconcile(cfg, SlowTurns(cfg, w, g.Env(), gone[..j]), g.Env()).result == Requeue {
      var before := SlowTurns(cfg, w, g.Env(), gone[..j]);
      assert IsUnderway(cfg, g)(before) && !SuccessAt(cfg, g)(before);
      SteadyComesBack(cfg, before, g);
    }
  }

  // ---------------------------------------------------------------- rest

  /** How far the object is from its goal. While there is something to prune, nothing wanted counts as there. */
  ghost function Rank(cfg: Config, w: World, g: Goal): nat
    requires w.stored.Some?
  {
    var o, prunable := w.stored.value, Prunable(cfg, w, g);
    Unprepared(o, g) + 2 * Bit(Changed(o, g)) + Bit(!IsReady(o)) + Bit(prunable)
    + Bit(prunable || !(Terminated(w) !! Wanted(o, g)))
    + Bit(prunable || !(Wanted(o, g) <= Alive(w)) || !Guarded(o))
  }

  ghost predicate OnTheWay(cfg: Config, w: World, g: Goal) {
    Steady(w) && Compatible(cfg, w.stored.value, g) && SparesResource(cfg, w.stored.value, g)
  }

  /** A turn adds nothing to the way to the goal; one that leaves nothing terminating takes some away. */
  ghost predicate Progress(cfg: Config, w: World, g: Goal, after: World)
    requires w.stored.Some?
  {
    && OnTheWay(cfg, after, g)
    && Rank(cfg, after, g) <= Rank(cfg, w, g)
    && (Settled(after) && Rank(cfg, w, g) > 0 ==> Rank(cfg, after, g) < Rank(cfg, w, g))
  }

  lemma PreparingProgress(cfg: Config, w: World, g: Goal, after: World)
    requires OnTheWay(cfg, w, g) && after.stored.Some? && PreparedFurther(w.stored.value, after.stored.value, g)
    requires after.cluster.Keys <= w.cluster.Keys && Alive(after) == Alive(w)
    ensures Progress(cfg, w, g, after)
  {
    AliveOrTerminated(w);
    NothingNewTerminates(w, after, w.cluster.Keys);
  }

  lemma PruningProgress(cfg: Config, w: World, g: Goal, after: World)
    requires OnTheWay(cfg, w, g) && Prunable(cfg, w, g) && after.stored == w.stored
    requires Alive(after) !! Unwanted(cfg, w.stored.value, g)
    ensures Progress(cfg, w, g, after)
  {
    SettledKeys(after);
  }

  /** A round that writes a new list down leaves nothing to prune, and what was there is still there. */
  lemma NewListLeaves(cfg: Config, w: World, g: Goal, after: World)
    requires OnTheWay(cfg, w, g) && Changed(w.stored.value, g) && Synced(w, g, after) && Alive(w) <= Alive(after)
    ensures OnTheWay(cfg, after, g) && !Prunable(cfg, after, g) && !Changed(after.stored.value, g)
    ensures Terminated(w) !! Wanted(w.stored.value, g) ==> Terminated(after) !! Wanted(after.stored.value, g)
    ensures Wanted(w.stored.value, g) <= Alive(w) ==> Wanted(after.stored.value, g) <= Alive(after)
  {
    SameListHasNoDiff(g.target);
    assert Wanted(after.stored.value, g) <= Wanted(w.stored.value, g);
  }

  lemma NewListProgress(cfg: Config, w: World, g: Goal, after: World)
    requires OnTheWay(cfg, w, g) && Prepared(w.stored.value, g.mode) && !Prunable(cfg, w, g)
    requires Changed(w.stored.value, g) && Synced(w, g, after)
    requires Alive(w) <= Alive(after)
    ensures Progress(cfg, w, g, after)
  {
    NewListLeaves(cfg, w, g, after);
  }

  /** A round that sees no change leaves nothing to prune, and everything wanted is alive unless it was terminating. */
  lemma SameListLeaves(cfg: Config, w: World, g: Goal, after: World)
    requires OnTheWay(cfg, w, g) && !Prunable(cfg, w, g) && !Changed(w.stored.value, g) && Synced(w, g, after)
    ensures OnTheWay(cfg, after, g) && !Prunable(cfg, after, g)
    ensures Terminated(w) !! Wanted(w.stored.value, g) ==>
              Terminated(after) !! Wanted(after.stored.value, g) && Wanted(after.stored.value, g) <= Alive(after)
  {
    var o, o' := w.stored.value, after.stored.value;
    DroppedMissesTarget(cfg.matcher, o.status.synced, g.target);
    assert Wanted(o', g) <= Wanted(o, g);
    assert Wanted(o, g) - Terminated(w) <= Alive(after);
  }

  lemma SameListProgress(cfg: Config, w: World, g: Goal, after: World)
    requires OnTheWay(cfg, w, g) && Prepared(w.stored.value, g.mode) && !Prunable(cfg, w, g)
    requires !Changed(w.stored.value, g) && Synced(w, g, after)
    ensures Progress(cfg, w, g, after)
  {
    SameListLeaves(cfg, w, g, after);
    AliveOrTerminated(w);
    SettledKeys(after);
  }

  lemma SyncingProgress(cfg: Config, w: World, g: Goal, after: World)
    requires OnTheWay(cfg, w, g) && Prepared(w.stored.value, g.mode) && !Prunable(cfg, w, g) && Synced(w, g, after)
    ensures Progress(cfg, w, g, after)
  {
    AliveOrTerminated(w);
    if Changed(w.stored.value, g) {
      NewListProgress(cfg, w, g, after);
    } else {
      SameListProgress(cfg, w, g, after);
    }
  }

  lemma TurnProgress(cfg: Config, w: World, g: Goal, gone: set<ObjectKey>)
    requires OnTheWay(cfg, w, g)
    ensures Progress(cfg, w, g, SlowTurn(cfg, w, g.Env(), gone))
  {
    var after := SlowTurn(cfg, w, g.Env(), gone);
    if !Prepared(w.stored.value, g.mode) {
      TurnPrepares(cfg, w, g, gone);
      PreparingProgress(cfg, w, g, after);
    } else if Prunable(cfg, w, g) {
      TurnPrunes(cfg, w, g, gone);
      PruningProgress(cfg, w, g, after);
    } else {
      TurnSyncs(cfg, w, g, gone);
      SyncingProgress(cfg, w, g, after);
    }
  }

  // ---------------------------------------------------------------- convergence

  /** What the ranking says at zero. */
  ghost predicate Done(cfg: Config, w: World, g: Goal) {
    && w.stored.Some?
    && var o := w.stored.value;
    && Prepared(o, g.mode) && IsReady(o)
    && !Changed(o, g) && Guarded(o)
    && Wanted(o, g) <= Alive(w)
    && w.cluster.Keys !! Unwanted(cfg, o, g)
  }

  lemma ZeroIsDone(cfg: Config, w: World, g: Goal)
    requires Steady(w)
    ensures Rank(cfg, w, g) == 0 <==> Done(cfg, w, g)
    ensures Rank(cfg, w, g) <= 9
  {
    AliveOrTerminated(w);
  }

  /** The round succeeds and changes nothing. */
  ghost predicate Rests(cfg: Config, w: World, g: Goal) {
    Reconcile(cfg, w, g.Env()).result == OnSuccess && Reconcile(cfg, w, g.Env()).world == w
  }

  lemma SameCluster(w: World, round: Round, first: Round, after: World)
    requires Follows(w, round, first, after) && Settled(first.world) && first.world.cluster.Keys == w.cluster.Keys
    ensures round.world.cluster == w.cluster
  {
    SettledKeys(first.world);
    AliveOrTerminated(w);
    AliveOrTerminated(round.world);
    forall k | k in w.cluster ensures round.world.cluster[k] == w.cluster[k] {
      assert k in Alive(round.world) <==> k in Alive(w);
    }
  }

  lemma DoneRests(cfg: Config, w: World, g: Goal)
    requires OnTheWay(cfg, w, g) && Done(cfg, w, g)
    ensures Rests(cfg, w, g)
  {
    var first := Reconcile(cfg, Revive(w), g.Env());
    TurnSyncs(cfg, w, g, {});
    SlowTurnFollows(cfg, w, g.Env(), {});
    SyncingRound(cfg, Revive(w), g);
    AliveOrTerminated(w);
    assert w.cluster.Keys + Wanted(w.stored.value, g) == w.cluster.Keys;
    SameCluster(w, Reconcile(cfg, w, g.Env()), first, SlowTurn(cfg, w, g.Env(), {}));
  }

  lemma TurnsProgress(cfg: Config, w: World, g: Goal, gone: seq<set<ObjectKey>>)
    requires OnTheWay(cfg, w, g)
    ensures var after := SlowTurns(cfg, w, g.Env(), gone);
            && OnTheWay(cfg, after, g)
            && (Rank(cfg, after, g) == 0 || Rank(cfg, after, g) + Completed(cfg, w, g.Env(), gone) <= Rank(cfg, w, g))
  {
    var inv := (x: World) => OnTheWay(cfg, x, g);
    var rank := (x: World) => if x.stored.None? then 0 else Rank(cfg, x, g);
    forall x, d | inv(x)
      ensures var after := SlowTurn(cfg, x, g.Env(), d);
              inv(after) && rank(after) <= rank(x) && (Settled(after) && rank(x) > 0 ==> rank(after) < rank(x))
    {
      TurnProgress(cfg, x, g, d);
    }
    assert Ranks(cfg, g.Env(), inv, rank);
    SlowTurnsLowerRank(cfg, w, g.Env(), gone, inv, rank);
  }

  /** From any status of an object that nobody deletes, calm rounds lead to the goal as soon as nine of them have left nothing
      terminating: Ready, the target tracked and alive, nothing to prune left, the custom resource in place. From there every
      round succeeds and changes nothing. */
  lemma Convergence(cfg: Config, w: World, g: Goal, gone: seq<set<ObjectKey>>)
    requires OnTheWay(cfg, w, g) && Completed(cfg, w, g.Env(), gone) >= 9
    ensures var after := SlowTurns(cfg, w, g.Env(), gone); Done(cfg, after, g) && Rests(cfg, after, g)
  {
    TurnsProgress(cfg, w, g, gone);
    ZeroIsDone(cfg, w, g);
    var after := SlowTurns(cfg, w, g.Env(), gone);
    ZeroIsDone(cfg, after, g);
    DoneRests(cfg, after, g);
  }

  /** For good lists the second part of the condition is void, and the tracked list names the target's identifiers. */
  lemma GoodListsAgree(cfg: Config, o: Object, g: Goal)
    requires GoodList(o.status.synced) && GoodList(g.target)
    ensures Changed(o, g) <==> IDs(o.status.synced) != IDs(g.target)
    ensures !Changed(o, g) ==> Unwanted(cfg, o, g) == {} && Keys(o.status.synced) == Keys(g.target)
    ensures SparesResource(cfg, o, g)
  {
    DiffEmptyIffSameIDs(o.status.synced, g.target);
    if !Changed(o, g) {
      SameIDsSameResources(o.status.synced, g.target);
      SameIDsSameResources(g.target, o.status.synced);
    }
  }

  // ---------------------------------------------------------------- when it does not converge

  /** The chart installs what the target drops. */
  ghost predicate Conflict(cfg: Config, w: World, g: Goal) {
    Steady(w) && !Compatible(cfg, w.stored.value, g)
  }

  lemma ConflictStays(cfg: Config, w: World, g: Goal, gone: set<ObjectKey>)
    requires Conflict(cfg, w, g)
    ensures Reconcile(cfg, w, g.Env()).result == Requeue
    ensures Conflict(cfg, SlowTurn(cfg, w, g.Env(), gone), g)
  {
    if !Prepared(w.stored.value, g.mode) {
      TurnPrepares(cfg, w, g, gone);
    } else {
      TurnPrunes(cfg, w, g, gone);
    }
  }

  lemma {:induction false} ConflictForever(cfg: Config, w: World, g: Goal, gone: seq<set<ObjectKey>>)
    requires Conflict(cfg, w, g)
    ensures Conflict(cfg, SlowTurns(cfg, w, g.Env(), gone), g) && !Succeeds(cfg, w, g, gone)
    decreases |gone|
  {
    if gone != [] {
      var init := gone[..|gone| - 1];
      ConflictForever(cfg, w, g, init);
      ConflictStays(cfg, SlowTurns(cfg, w, g.Env(), init), g, gone[|gone| - 1]);
    }
    ConflictStays(cfg, SlowTurns(cfg, w, g.Env(), gone), g, {});
  }

  /** The exact condition of success: some calm round succeeds if and only if the chart does not install what the target drops.
      Otherwise installing and pruning undo each other for ever. */
  lemma ConvergesIff(cfg: Config, w: World, g: Goal)
    requires Steady(w)
    ensures (exists gone :: Succeeds(cfg, w, g, gone)) <==> Compatible(cfg, w.stored.value, g)
  {
    if Compatible(cfg, w.stored.value, g) {
      var nine := TurnsAreSlow(cfg, w, g.Env(), 9);
      var i := SuccessRecurs(cfg, w, g, nine);
      assert Succeeds(cfg, w, g, nine[..i]);
    } else {
      forall gone ensures !Succeeds(cfg, w, g, gone) {
        ConflictForever(cfg, w, g, gone);
      }
    }
  }

  /** The custom resource is to be pruned, and the comparison sees no change that would end that. */
  ghost predicate Flapping(cfg: Config, w: World, g: Goal) {
    Steady(w) && Compatible(cfg, w.stored.value, g) && !SparesResource(cfg, w.stored.value, g)
  }

  lemma FlappingStays(cfg: Config, w: World, g: Goal, gone: set<ObjectKey>)
    requires Flapping(cfg, w, g)
    ensures !Rests(cfg, w, g) && Flapping(cfg, SlowTurn(cfg, w, g.Env(), gone), g)
  {
    if !Prepared(w.stored.value, g.mode) {
      TurnPrepares(cfg, w, g, gone);
    } else if Prunable(cfg, w, g) {
      TurnPrunes(cfg, w, g, gone);
    } else {
      TurnSyncs(cfg, w, g, gone);
      SlowTurnFollows(cfg, w, g.Env(), gone);
      SyncingRound(cfg, Revive(w), g);
      assert !(ResourceOf(w.stored.value) <= w.cluster.Keys);
    }
  }

  lemma {:induction false} FlappingForever(cfg: Config, w: World, g: Goal, gone: seq<set<ObjectKey>>)
    requires Flapping(cfg, w, g)
    ensures Flapping(cfg, SlowTurns(cfg, w, g.Env(), gone), g) && !Rests(cfg, SlowTurns(cfg, w, g.Env(), gone), g)
    decreases |gone|
  {
    if gone != [] {
      var init := gone[..|gone| - 1];
      FlappingForever(cfg, w, g, init);
      FlappingStays(cfg, SlowTurns(cfg, w, g.Env(), init), g, gone[|gone| - 1]);
    }
    FlappingStays(cfg, SlowTurns(cfg, w, g.Env(), gone), g, {});
  }

  /** The exact condition of coming to rest: neither the chart nor the hook brings back what is pruned. */
  lemma RestsIff(cfg: Config, w: World, g: Goal)
    requires Steady(w)
    ensures (exists gone :: Rests(cfg, SlowTurns(cfg, w, g.Env(), gone), g))
            <==> Compatible(cfg, w.stored.value, g) && SparesResource(cfg, w.stored.value, g)
  {
    if OnTheWay(cfg, w, g) {
      var nine := TurnsAreSlow(cfg, w, g.Env(), 9);
      Convergence(cfg, w, g, nine);
    } else {
      forall gone ensures !Rests(cfg, SlowTurns(cfg, w, g.Env(), gone), g) {
        if Compatible(cfg, w.stored.value, g) {
          FlappingForever(cfg, w, g, gone);
        } else {
          ConflictForever(cfg, w, g, gone);
        }
      }
    }
  }
}

/** Deletion in a calm surrounding, with deletes that take any number of rounds: when it terminates, and what it leaves of the
    cluster. */
module Deletion {
  import opened Identity
  import opened Model
  import opened Protocol
  import opened Frames
  import opened Calm
  import opened Iteration
  import R = Results

  /** The object is being deleted. */
  ghost predicate Doomed(w: World) {
    w.stored.Some? ==> w.stored.value.deleting
  }

  /** Deletion has been acknowledged and there is no condition left to register. */
  ghost predicate Underway(o: Object, mode: RenderMode) {
    o.deleting && o.status.state == StateDeleting && Registered(o, mode)
  }

  // ---------------------------------------------------------------- one round, exactly

  /** The keys that are there once the round has installed what it installs. */
  function Present(w: World, o: Object, mode: RenderMode, crds: set<ObjectKey>): set<ObjectKey> {
    w.cluster.Keys + Reinstalled(o, mode, crds)
  }

  ghost predicate WaitsForResource(o: Object, present: set<ObjectKey>) {
    !(present !! ResourceOf(o))
  }

  ghost predicate WaitsForCleanup(cfg: Config, o: Object, present: set<ObjectKey>, crds: set<ObjectKey>) {
    || !(present !! Keys(o.status.synced))
    || (cfg.deletePrerequisites && crds != {})
  }

  ghost function KeysAfter(cfg: Config, o: Object, present: set<ObjectKey>, crds: set<ObjectKey>): set<ObjectKey> {
    if !(present !! ResourceOf(o)) then present - ResourceOf(o)
    else if !(present !! Keys(o.status.synced)) then present - Keys(o.status.synced)
    else if cfg.deletePrerequisites then present - crds
    else present
  }

  ghost function FinalizersAfter(cfg: Config, o: Object, present: set<ObjectKey>, crds: set<ObjectKey>): set<Finalizer> {
    if WaitsForResource(o, present) then
      o.finalizers
    else
      var kept := KeptFinalizers(o);
      if WaitsForCleanup(cfg, o, present, crds) || kept != o.finalizers || Own !in o.finalizers then
        kept
      else
        o.finalizers - {Own}
  }

  /** The object as a deleting round leaves it. */
  ghost predicate Left(o: Object, after: Option<Object>, finalizers: set<Finalizer>, mode: RenderMode) {
    if finalizers == {} && finalizers != o.finalizers then
      after == None
    else
      && after.Some?
      && var o' := after.value;
      && Underway(o', mode)
      && o'.finalizers == finalizers
      && o'.resource == o.resource
      && o'.status.synced == o.status.synced
  }

  lemma CalmRemoval(c: Ctx, mode: RenderMode, crds: set<ObjectKey>, target: seq<Resource>)
    requires Settled(c.world) && (mode == Helm ==> crds <= c.world.cluster.Keys)
    ensures var p := RemovePrerequisites(c, CalmEnv(mode, crds, target));
            var removed := if mode == Helm then crds else {};
            && p.ctx.mem == c.mem && p.ctx.world.stored == c.world.stored
            && (if removed == {} then p.Clean? else p.Waiting?)
            && Settle(p.ctx.world).cluster.Keys == c.world.cluster.Keys - removed
            && Settle(p.ctx.world).stored == c.world.stored
  {
    if mode == Helm {
      var outcomes := Outcomes(c.world.cluster, crds, {});
      forall k | k in crds ensures outcomes[k] == Accepted {
        assert outcomes[k] in outcomes.Values;
      }
    }
  }

  function KeptFinalizers(o: Object): set<Finalizer> {
    if o.resource.Some? then o.finalizers - {OfCustomResource} else o.finalizers
  }

  /** The hook in a calm deletion: it waits while the custom resource is there, and then drops its finalizer. */
  lemma CalmPreDelete(c: Ctx, mode: RenderMode, crds: set<ObjectKey>, target: seq<Resource>)
    requires Settled(c.world) && c.world.stored.Some?
    ensures var p := PreDelete(c, CalmEnv(mode, crds, target));
            var o := c.world.stored.value;
            && p.ctx.mem == c.mem
            && (if WaitsForResource(c.mem, c.world.cluster.Keys) then
                  p.Stop? && p.ctx.world.stored == c.world.stored
                  && Settle(p.ctx.world).cluster.Keys == c.world.cluster.Keys - ResourceOf(c.mem)
                else
                  && p.Go? && p.ctx.world.cluster == c.world.cluster
                  && (if c.mem.resource.Some? && OfCustomResource in o.finalizers
                      then p.ctx.world.stored == WithFinalizers(o, o.finalizers - {OfCustomResource})
                      else p.ctx.world.stored == c.world.stored))
  {
  }

  /** The cleanup of everything tracked, and of the prerequisites where they are to be deleted. */
  lemma CalmPrune(cfg: Config, c: Ctx, mode: RenderMode, crds: set<ObjectKey>, target: seq<Resource>)
    requires Settled(c.world) && c.world.stored.Some? && c.mem.deleting
    requires mode == Helm ==> crds <= c.world.cluster.Keys
    requires !WaitsForResource(c.mem, c.world.cluster.Keys)
    ensures var e := CalmEnv(mode, crds, target);
            var removed := if mode == Helm then crds else {};
            var p := PruneDiff(cfg, c, e, Keys(c.mem.status.synced));
            && p.ctx.mem == c.mem
            && p.ctx.world.stored == PreDelete(c, e).ctx.world.stored
            && Settle(p.ctx.world).cluster.Keys == KeysAfter(cfg, c.mem, c.world.cluster.Keys, removed)
            && (if WaitsForCleanup(cfg, c.mem, c.world.cluster.Keys, removed) then p.Waiting? else p.Clean?)
  {
    var e := CalmEnv(mode, crds, target);
    var keys := Keys(c.mem.status.synced);
    CalmPreDelete(c, mode, crds, target);
    var d := PreDelete(c, e);
    CalmCleanup(d.ctx, e, keys);
    var q := Cleanup(d.ctx, e, keys);
    if q.Clean? {
      CalmRemoval(q.ctx, mode, crds, target);
    }
  }

  /** The end of a deleting round whose copy of the object is `mem`. */
  lemma CalmFinish(c: Ctx, e: Env, o: Object, mode: RenderMode)
    requires e.update && e.write && SameButStatus(c.mem, o) && Underway(c.mem, mode) && Underway(o, mode)
    requires c.world.stored == if KeptFinalizers(o) == o.finalizers then Some(o) else WithFinalizers(o, KeptFinalizers(o))
    ensures var r := FinishDeletion(c, e);
            var kept := KeptFinalizers(o);
            && r.world.cluster == c.world.cluster
            && Left(o, r.world.stored,
                    if kept != o.finalizers || Own !in o.finalizers then kept else o.finalizers - {Own}, mode)
  {
  }

  lemma KeptIsChanged(o: Object)
    ensures KeptFinalizers(o) != o.finalizers <==> o.resource.Some? && OfCustomResource in o.finalizers
  {
  }

  /** Pruning in a deletion, from the point where the prerequisites are installed. */
  lemma DeletingPrune(cfg: Config, c: Ctx, mode: RenderMode, crds: set<ObjectKey>, target: seq<Resource>)
    requires Settled(c.world) && c.world.stored.Some? && SameButStatus(c.mem, c.world.stored.value)
    requires Underway(c.mem, mode) && Underway(c.world.stored.value, mode)
    requires mode == Helm ==> crds <= c.world.cluster.Keys
    ensures var e := CalmEnv(mode, crds, target);
            var removed := if mode == Helm then crds else {};
            var r := AfterPrune(PruneDiff(cfg, c, e, Keys(c.mem.status.synced)), e, []);
            var o, present := c.world.stored.value, c.world.cluster.Keys;
            && Settle(r.world).cluster.Keys == KeysAfter(cfg, o, present, removed)
            && Left(o, r.world.stored, FinalizersAfter(cfg, o, present, removed), mode)
  {
    var e := CalmEnv(mode, crds, target);
    CalmPreDelete(c, mode, crds, target);
    KeptIsChanged(c.mem);
    if !WaitsForResource(c.mem, c.world.cluster.Keys) {
      CalmPrune(cfg, c, mode, crds, target);
      var p := PruneDiff(cfg, c, e, Keys(c.mem.status.synced));
      if p.Clean? {
        CalmFinish(p.ctx, e, c.world.stored.value, mode);
      }
    }
  }

  lemma DeletingKeepsKeys(cfg: Config, c: Ctx, e: Env, keys: set<ObjectKey>)
    requires c.mem.deleting
    ensures AfterPrune(PruneDiff(cfg, c, e, keys), e, []).world.cluster.Keys == c.world.cluster.Keys
  {
    PruneFrame(cfg, c, e, keys);
  }

  /** A round of a deletion that is under way, exactly. */
  lemma DeletingRound(cfg: Config, w: World, mode: RenderMode, crds: set<ObjectKey>, target: seq<Resource>)
    requires Settled(w) && w.stored.Some? && Underway(w.stored.value, mode)
    ensures var o := w.stored.value;
            var round := Reconcile(cfg, w, CalmEnv(mode, crds, target)).world;
            var present, removed := Present(w, o, mode, crds), Reinstalled(o, mode, crds);
            && round.cluster.Keys == present
            && Settle(round).cluster.Keys == KeysAfter(cfg, o, present, removed)
            && Left(o, round.stored, FinalizersAfter(cfg, o, present, removed), mode)
  {
    var e := CalmEnv(mode, crds, target);
    var c := CalmUntilPrune(cfg, w, mode, crds, target);
    var keys := Keys(c.mem.status.synced);
    assert Dropped(cfg.matcher, c.mem.status.synced, []) == keys;
    DeletingPrune(cfg, c, mode, crds, target);
    DeletingKeepsKeys(cfg, c, e, keys);
  }

  /** A round before that persists Deleting, or registers the chart condition, and does nothing else. */
  lemma AcknowledgingRound(cfg: Config, w: World, mode: RenderMode, crds: set<ObjectKey>, target: seq<Resource>)
    requires Doomed(w) && w.stored.Some? && !Underway(w.stored.value, mode)
    ensures var o := w.stored.value;
            var round := Reconcile(cfg, w, CalmEnv(mode, crds, target)).world;
            && round.cluster == w.cluster
            && round.stored.Some?
            && SameButStatus(round.stored.value, o.(version := o.version + 1))
            && Unprepared(round.stored.value, mode) < Unprepared(o, mode)
  {
  }

  // ---------------------------------------------------------------- termination

  function Unprepared(o: Object, mode: RenderMode): nat {
    Bit(o.status.state != StateDeleting) + Bit(mode == Helm && HelmCRDs !in o.status.conditions)
  }

  /** How much of the deletion is outstanding. */
  ghost function Rank(w: World, mode: RenderMode): nat {
    if w.stored.None? then
      0
    else
      var o := w.stored.value;
      Unprepared(o, mode)
      + Bit(!(w.cluster.Keys !! ResourceOf(o)))
      + Bit(OfCustomResource in o.finalizers)
      + Bit(!(w.cluster.Keys !! Keys(o.status.synced)))
      + Bit(Own in o.finalizers)
  }

  /** The object holds neither finalizer of the controller. */
  ghost predicate Released(w: World) {
    w.stored.Some? ==> Own !in w.stored.value.finalizers && OfCustomResource !in w.stored.value.finalizers
  }

  /** What a deletion gets stuck on: CRDs of the chart, which every deleting round installs again, that it also has to
      delete; and a finalizer for a custom resource that the spec does not name any more. */
  ghost predicate CanFinish(cfg: Config, o: Object, mode: RenderMode, crds: set<ObjectKey>) {
    && (mode == Helm ==> crds !! Keys(o.status.synced) + ResourceOf(o))
    && (mode == Helm && cfg.deletePrerequisites ==> crds == {})
    && (OfCustomResource in o.finalizers ==> o.resource.Some?)
  }

  /** The effect of a deleting round on an object that can be released: the outstanding work never grows, and shrinks once the
      deletes of the round are completed. */
  lemma RoundLowersRank(cfg: Config, w: World, mode: RenderMode, crds: set<ObjectKey>, after: World)
    requires w.stored.Some? && CanFinish(cfg, w.stored.value, mode, crds) && Underway(w.stored.value, mode)
    requires var o := w.stored.value;
             var present, removed := Present(w, o, mode, crds), Reinstalled(o, mode, crds);
             && after.cluster.Keys <= present
             && Left(o, after.stored, FinalizersAfter(cfg, o, present, removed), mode)
    ensures Finishing(cfg, after, mode, crds) && Rank(after, mode) <= Rank(w, mode)
    ensures Released(w) ==> Released(after)
    ensures var o := w.stored.value;
            var present, removed := Present(w, o, mode, crds), Reinstalled(o, mode, crds);
            !Released(w) && after.cluster.Keys <= KeysAfter(cfg, o, present, removed) ==> Rank(after, mode) < Rank(w, mode)
  {
    var o := w.stored.value;
    KeptIsChanged(o);
    var present := Present(w, o, mode, crds);
    assert present !! Keys(o.status.synced) <==> w.cluster.Keys !! Keys(o.status.synced);
    assert present !! ResourceOf(o) <==> w.cluster.Keys !! ResourceOf(o);
  }

  /** A deletion that can finish. */
  ghost predicate Finishing(cfg: Config, w: World, mode: RenderMode, crds: set<ObjectKey>) {
    Doomed(w) && (w.stored.Some? ==> CanFinish(cfg, w.stored.value, mode, crds))
  }

  ghost function Outstanding(w: World, mode: RenderMode): nat {
    if Released(w) then 0 else Rank(w, mode)
  }

  /** Every slow turn keeps a deletion able to finish and adds nothing to the outstanding work; one after which nothing is
      terminating takes some away. */
  lemma DeletionAdvances(cfg: Config, w: World, mode: RenderMode, crds: set<ObjectKey>, target: seq<Resource>,
                         gone: set<ObjectKey>)
    requires Finishing(cfg, w, mode, crds)
    ensures var after := SlowTurn(cfg, w, CalmEnv(mode, crds, target), gone);
            && Finishing(cfg, after, mode, crds)
            && Outstanding(after, mode) <= Outstanding(w, mode)
            && (Settled(after) && Outstanding(w, mode) > 0 ==> Outstanding(after, mode) < Outstanding(w, mode))
  {
    var e := CalmEnv(mode, crds, target);
    var after := SlowTurn(cfg, w, e, gone);
    RankOfHeld(w, mode);
    if w.stored.Some? {
      SlowTurnFollows(cfg, w, e, gone);
      SettledKeys(after);
      if Underway(w.stored.value, mode) {
        DeletingRound(cfg, Revive(w), mode, crds, target);
        SettledKeys(Reconcile(cfg, Revive(w), e).world);
        RoundLowersRank(cfg, w, mode, crds, after);
      } else {
        AcknowledgingRound(cfg, Revive(w), mode, crds, target);
      }
    }
  }

  lemma RankOfHeld(w: World, mode: RenderMode)
    ensures !Released(w) ==> Rank(w, mode) > 0
    ensures Rank(w, mode) <= 6
  {
  }

  /** Every round up to the release comes back: it asks to be repeated, or it changed the object. */
  ghost predicate GoesOn(cfg: Config, w: World, e: Env, gone: seq<set<ObjectKey>>) {
    forall i | 0 <= i < |gone| :: Returns(cfg, SlowTurns(cfg, w, e, gone[..i]), e)
  }

  ghost predicate Returns(cfg: Config, w: World, e: Env) {
    Released(w) || R.ComesBack(w, Reconcile(cfg, w, e))
  }

  lemma DoomedReturns(cfg: Config, w: World, mode: RenderMode, crds: set<ObjectKey>, target: seq<Resource>)
    requires Doomed(w)
    ensures Returns(cfg, w, CalmEnv(mode, crds, target))
  {
    if w.stored.Some? {
      R.RoundComesBack(cfg, w, CalmEnv(mode, crds, target));
      R.ResultIff(cfg, w, CalmEnv(mode, crds, target));
    }
  }

  lemma DeletionGoesOn(cfg: Config, w: World, mode: RenderMode, crds: set<ObjectKey>, target: seq<Resource>,
                       gone: seq<set<ObjectKey>>)
    requires Finishing(cfg, w, mode, crds)
    ensures GoesOn(cfg, w, CalmEnv(mode, crds, target), gone)
  {
    var e := CalmEnv(mode, crds, target);
    forall i | 0 <= i < |gone| ensures Returns(cfg, SlowTurns(cfg, w, e, gone[..i]), e) {
      DeletionShrinks(cfg, w, mode, crds, target, gone[..i]);
      DoomedReturns(cfg, SlowTurns(cfg, w, e, gone[..i]), mode, crds, target);
    }
  }

  /** Slow turns keep a deletion that can finish able to finish, every one of them comes back, and the object is released as soon
      as six of them have left nothing terminating, however many there were in between. */
  lemma DeletionTerminates(cfg: Config, w: World, mode: RenderMode, crds: set<ObjectKey>, target: seq<Resource>,
                           gone: seq<set<ObjectKey>>)
    requires Finishing(cfg, w, mode, crds)
    ensures var e := CalmEnv(mode, crds, target);
            var after := SlowTurns(cfg, w, e, gone);
            && Finishing(cfg, after, mode, crds) && GoesOn(cfg, w, e, gone)
            && (Completed(cfg, w, e, gone) >= 6 ==> Released(after))
  {
    DeletionShrinks(cfg, w, mode, crds, target, gone);
    DeletionGoesOn(cfg, w, mode, crds, target, gone);
  }

  lemma DeletionShrinks(cfg: Config, w: World, mode: RenderMode, crds: set<ObjectKey>, target: seq<Resource>,
                        gone: seq<set<ObjectKey>>)
    requires Finishing(cfg, w, mode, crds)
    ensures var e := CalmEnv(mode, crds, target);
            var after := SlowTurns(cfg, w, e, gone);
            Finishing(cfg, after, mode, crds) && (Completed(cfg, w, e, gone) >= 6 ==> Released(after))
  {
    var e := CalmEnv(mode, crds, target);
    var inv := (x: World) => Finishing(cfg, x, mode, crds);
    var rank := (x: World) => Outstanding(x, mode);
    forall x, d | inv(x)
      ensures var after := SlowTurn(cfg, x, e, d);
              inv(after) && rank(after) <= rank(x) && (Settled(after) && rank(x) > 0 ==> rank(after) < rank(x))
    {
      DeletionAdvances(cfg, x, mode, crds, target, d);
    }
    assert Ranks(cfg, e, inv, rank);
    SlowTurnsLowerRank(cfg, w, e, gone, inv, rank);
    RankOfHeld(w, mode);
    RankOfHeld(SlowTurns(cfg, w, e, gone), mode);
  }

  lemma TurnsTerminate(cfg: Config, w: World, mode: RenderMode, crds: set<ObjectKey>, target: seq<Resource>, n: nat)
    requires Finishing(cfg, w, mode, crds)
    ensures Finishing(cfg, Turns(cfg, w, CalmEnv(mode, crds, target), n), mode, crds)
    ensures n >= 6 ==> Released(Turns(cfg, w, CalmEnv(mode, crds, target), n))
  {
    var gone := TurnsAreSlow(cfg, w, CalmEnv(mode, crds, target), n);
    DeletionTerminates(cfg, w, mode, crds, target, gone);
  }

  // ---------------------------------------------------------------- when it does not terminate

  /** The stuck object: it holds a finalizer that no calm round will take away. */
  ghost predicate Stuck(cfg: Config, w: World, mode: RenderMode, crds: set<ObjectKey>) {
    && Doomed(w) && w.stored.Some?
    && var o := w.stored.value;
    || (OfCustomResource in o.finalizers && o.resource.None?)
    || (Own in o.finalizers && mode == Helm && !(crds !! Keys(o.status.synced) + ResourceOf(o)))
    || (Own in o.finalizers && mode == Helm && cfg.deletePrerequisites && crds != {})
  }

  lemma StuckIsNotReleased(cfg: Config, w: World, mode: RenderMode, crds: set<ObjectKey>)
    requires Stuck(cfg, w, mode, crds)
    ensures !Released(w)
  {
  }

  lemma RoundKeepsStuck(cfg: Config, w: World, mode: RenderMode, crds: set<ObjectKey>, after: World)
    requires Stuck(cfg, w, mode, crds)
    requires var o := w.stored.value;
             var present, removed := Present(w, o, mode, crds), Reinstalled(o, mode, crds);
             && Underway(o, mode)
             && Left(o, after.stored, FinalizersAfter(cfg, o, present, removed), mode)
    ensures Stuck(cfg, after, mode, crds)
  {
    var o := w.stored.value;
    KeptIsChanged(o);
    var present := Present(w, o, mode, crds);
    if Own in o.finalizers && mode == Helm && !(crds !! Keys(o.status.synced) + ResourceOf(o)) {
      assert WaitsForResource(o, present) || WaitsForCleanup(cfg, o, present, crds);
      assert Own in KeptFinalizers(o);
    }
    if OfCustomResource in o.finalizers {
      assert OfCustomResource in o.finalizers - {Own};
    }
    if Own in o.finalizers {
      assert Own in KeptFinalizers(o);
    }
  }

  lemma StuckStaysStuck(cfg: Config, w: World, mode: RenderMode, crds: set<ObjectKey>, target: seq<Resource>,
                        gone: set<ObjectKey>)
    requires Stuck(cfg, w, mode, crds)
    ensures Stuck(cfg, SlowTurn(cfg, w, CalmEnv(mode, crds, target), gone), mode, crds)
  {
    var e := CalmEnv(mode, crds, target);
    SlowTurnFollows(cfg, w, e, gone);
    if Underway(w.stored.value, mode) {
      DeletingRound(cfg, Revive(w), mode, crds, target);
      RoundKeepsStuck(cfg, w, mode, crds, SlowTurn(cfg, w, e, gone));
    } else {
      AcknowledgingRound(cfg, Revive(w), mode, crds, target);
    }
  }

  lemma {:induction false} StuckForever(cfg: Config, w: World, mode: RenderMode, crds: set<ObjectKey>, target: seq<Resource>,
                                        gone: seq<set<ObjectKey>>)
    requires Stuck(cfg, w, mode, crds)
    ensures Stuck(cfg, SlowTurns(cfg, w, CalmEnv(mode, crds, target), gone), mode, crds)
    decreases |gone|
  {
    if gone != [] {
      var init := gone[..|gone| - 1];
      StuckForever(cfg, w, mode, crds, target, init);
      StuckStaysStuck(cfg, SlowTurns(cfg, w, CalmEnv(mode, crds, target), init), mode, crds, target, gone[|gone| - 1]);
    }
  }

  /** The exact condition of termination: calm rounds, with deletes that take any time, ever release an object that carries the
      reconciler's finalizer if and only if nothing holds it back. They then do so once six of them have left nothing
      terminating. */
  lemma DeletionTerminatesIff(cfg: Config, w: World, mode: RenderMode, crds: set<ObjectKey>, target: seq<Resource>)
    requires Doomed(w) && w.stored.Some? && Own in w.stored.value.finalizers
    ensures var e := CalmEnv(mode, crds, target);
            && ((exists gone :: Released(SlowTurns(cfg, w, e, gone))) <==> CanFinish(cfg, w.stored.value, mode, crds))
            && (CanFinish(cfg, w.stored.value, mode, crds) ==>
                forall gone | Completed(cfg, w, e, gone) >= 6 :: Released(SlowTurns(cfg, w, e, gone)))
  {
    var e := CalmEnv(mode, crds, target);
    if CanFinish(cfg, w.stored.value, mode, crds) {
      forall gone | Completed(cfg, w, e, gone) >= 6 ensures Released(SlowTurns(cfg, w, e, gone)) {
        DeletionTerminates(cfg, w, mode, crds, target, gone);
      }
      var six := TurnsAreSlow(cfg, w, e, 6);
      assert Released(SlowTurns(cfg, w, e, six));
    } else {
      forall gone ensures !Released(SlowTurns(cfg, w, e, gone)) {
        StuckForever(cfg, w, mode, crds, target, gone);
        StuckIsNotReleased(cfg, SlowTurns(cfg, w, e, gone), mode, crds);
      }
    }
  }

  // ---------------------------------------------------------------- what is left

  /** Along a deletion: apart from the prerequisites nothing changes that it is not in charge of, and the reconciler's
      finalizer stays until all it is in charge of is gone. */
  ghost predicate Faithful(first: World, o: Object, crds: set<ObjectKey>, w: World) {
    && w.cluster.Keys - crds - InCharge(o) == first.cluster.Keys - crds - InCharge(o)
    && (w.stored.Some? ==> w.stored.value.status.synced == o.status.synced && w.stored.value.resource == o.resource)
    && ((w.stored.Some? && Own in w.stored.value.finalizers) || w.cluster.Keys !! InCharge(o))
  }

  lemma RoundIsFaithful(cfg: Config, first: World, o: Object, w: World, mode: RenderMode, crds: set<ObjectKey>,
                        after: World)
    requires w.stored.Some? && Faithful(first, o, crds, w) && crds !! InCharge(o)
    requires var o1 := w.stored.value;
             var present, removed := Present(w, o1, mode, crds), Reinstalled(o1, mode, crds);
             && after.cluster.Keys == KeysAfter(cfg, o1, present, removed)
             && Left(o1, after.stored, FinalizersAfter(cfg, o1, present, removed), mode)
    ensures Faithful(first, o, crds, after)
  {
    KeptIsChanged(w.stored.value);
  }

  lemma DeletionStaysFaithful(cfg: Config, first: World, o: Object, w: World, mode: RenderMode, crds: set<ObjectKey>,
                              target: seq<Resource>)
    requires Settled(w) && Doomed(w) && Faithful(first, o, crds, w) && crds !! InCharge(o)
    ensures Faithful(first, o, crds, Turn(cfg, w, CalmEnv(mode, crds, target)))
  {
    SettledIsSettled(w);
    if w.stored.Some? {
      if Underway(w.stored.value, mode) {
        DeletingRound(cfg, w, mode, crds, target);
        RoundIsFaithful(cfg, first, o, w, mode, crds, Turn(cfg, w, CalmEnv(mode, crds, target)));
      } else {
        AcknowledgingRound(cfg, w, mode, crds, target);
      }
    }
  }

  lemma ReleasedAndFaithful(first: World, o: Object, crds: set<ObjectKey>, w: World)
    requires Faithful(first, o, crds, w) && Released(w) && crds !! InCharge(o)
    ensures w.cluster.Keys - crds == first.cluster.Keys - InCharge(o) - crds
  {
    assert w.cluster.Keys - crds == w.cluster.Keys - crds - InCharge(o);
  }

  lemma DeletionIsFaithful(cfg: Config, w: World, mode: RenderMode, crds: set<ObjectKey>, target: seq<Resource>, n: nat)
    requires Settled(w) && w.stored.Some? && Own in w.stored.value.finalizers
    requires Finishing(cfg, w, mode, crds) && crds !! InCharge(w.stored.value)
    ensures Faithful(w, w.stored.value, crds, Turns(cfg, w, CalmEnv(mode, crds, target), n))
  {
    var step := (x: World) => Turn(cfg, x, CalmEnv(mode, crds, target));
    var inv := (x: World) => Settled(x) && Finishing(cfg, x, mode, crds) && Faithful(w, w.stored.value, crds, x);
    forall x | inv(x) ensures inv(step(x)) {
      TurnIsSlow(cfg, x, CalmEnv(mode, crds, target));
      DeletionAdvances(cfg, x, mode, crds, target, Reconcile(cfg, x, CalmEnv(mode, crds, target)).world.cluster.Keys);
      DeletionStaysFaithful(cfg, w, w.stored.value, x, mode, crds, target);
    }
    KeepsInvariant(step, inv, w, n);
  }

  /** A terminated deletion has removed exactly what the object tracked and its custom resource: every other object that is
      no prerequisite is there if and only if it was there before. */
  lemma DeletionRemovesExactly(cfg: Config, w: World, mode: RenderMode, crds: set<ObjectKey>, target: seq<Resource>,
                               n: nat)
    requires Settled(w) && Doomed(w) && w.stored.Some? && Own in w.stored.value.finalizers && n >= 6
    requires CanFinish(cfg, w.stored.value, mode, crds) && crds !! InCharge(w.stored.value)
    ensures var after := Turns(cfg, w, CalmEnv(mode, crds, target), n);
            after.cluster.Keys - crds == w.cluster.Keys - InCharge(w.stored.value) - crds
  {
    TurnsTerminate(cfg, w, mode, crds, target, n);
    DeletionIsFaithful(cfg, w, mode, crds, target, n);
    ReleasedAndFaithful(w, w.stored.value, crds, Turns(cfg, w, CalmEnv(mode, crds, target), n));
  }
}

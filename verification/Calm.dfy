/** Rounds in a surrounding where nothing goes wrong. Accepted deletes are completed before the next round in a turn, and take
    any number of rounds in a slow turn. */
module Calm {
  import opened Identity
  import opened Model
  import opened Protocol
  import opened Iteration
  import opened Phases

  /** Everything that is terminating has gone. */
  function Settle(w: World): World {
    w.(cluster := map k | k in w.cluster && w.cluster[k] == Live :: Live)
  }

  ghost predicate Settled(w: World) {
    forall k | k in w.cluster :: w.cluster[k] == Live
  }

  lemma SettledIsSettled(w: World)
    ensures Settled(Settle(w))
    ensures Settled(w) ==> Settle(w) == w
  {
  }

  function Turn(cfg: Config, w: World, e: Env): World {
    Settle(Reconcile(cfg, w, e).world)
  }

  /** `n` turns in a row. */
  ghost function Turns(cfg: Config, w: World, e: Env, n: nat): World {
    Iterate((x: World) => Turn(cfg, x, e), w, n)
  }

  // ---------------------------------------------------------------- deletes that take longer

  function Terminated(w: World): set<ObjectKey> {
    set k | k in w.cluster && w.cluster[k] == Terminating
  }

  function Alive(w: World): set<ObjectKey> {
    set k | k in w.cluster && w.cluster[k] == Live
  }

  function Revive(w: World): World {
    w.(cluster := map k | k in w.cluster :: Live)
  }

  /** Of what is terminating, the objects of `gone` have gone. */
  function Lapse(w: World, gone: set<ObjectKey>): World {
    w.(cluster := map k | k in w.cluster && (k in gone ==> w.cluster[k] == Live) :: w.cluster[k])
  }

  function SlowTurn(cfg: Config, w: World, e: Env, gone: set<ObjectKey>): World {
    Lapse(Reconcile(cfg, w, e).world, gone)
  }

  /** Slow turns in a row, where `gone[i]` have gone after round `i`. */
  ghost function SlowTurns(cfg: Config, w: World, e: Env, gone: seq<set<ObjectKey>>): World {
    if gone == [] then w
    else SlowTurn(cfg, SlowTurns(cfg, w, e, gone[..|gone| - 1]), e, gone[|gone| - 1])
  }

  /** How many of them left nothing terminating. */
  ghost function Completed(cfg: Config, w: World, e: Env, gone: seq<set<ObjectKey>>): nat {
    if gone == [] then 0
    else Completed(cfg, w, e, gone[..|gone| - 1]) + if Settled(SlowTurns(cfg, w, e, gone)) then 1 else 0
  }

  /** A slow turn is as good as the turn of the same world with everything alive, but for what is still terminating. */
  ghost predicate Follows(w: World, round: Round, first: Round, after: World) {
    && after.stored == round.world.stored == first.world.stored && round.result == first.result
    && round.world.cluster.Keys == first.world.cluster.Keys
    && Alive(after) == Alive(round.world) == Alive(first.world) - Terminated(w)
    && after.cluster.Keys <= first.world.cluster.Keys
  }

  lemma SlowTurnFollows(cfg: Config, w: World, e: Env, gone: set<ObjectKey>)
    ensures Settled(Revive(w)) && Revive(w).cluster.Keys == w.cluster.Keys && Revive(w).stored == w.stored
    ensures Follows(w, Reconcile(cfg, w, e), Reconcile(cfg, Revive(w), e), SlowTurn(cfg, w, e, gone))
  {
    var first := Reconcile(cfg, Revive(w), e);
    assert DimWorld(Revive(w), Terminated(w)) == w by {
      assert Dim(Revive(w).cluster, Terminated(w)) == w.cluster;
    }
    PhasesDoNotMatter(cfg, Revive(w), e, Terminated(w));
    assert Reconcile(cfg, w, e).world.cluster == Dim(first.world.cluster, Terminated(w));
    assert Alive(Reconcile(cfg, w, e).world) == Alive(first.world) - Terminated(w);
  }

  lemma SettledKeys(w: World)
    ensures Settle(w).cluster.Keys == Alive(w) && Settled(Settle(w)) && Settle(w).stored == w.stored
    ensures Settled(w) ==> w.cluster.Keys == Alive(w) && Terminated(w) == {}
  {
  }

  /** A rank that no slow turn raises, and that every one lowers which leaves nothing terminating. */
  ghost predicate Ranks(cfg: Config, e: Env, inv: World -> bool, rank: World -> nat) {
    forall w, gone | inv(w) ::
      var after := SlowTurn(cfg, w, e, gone);
      inv(after) && rank(after) <= rank(w) && (Settled(after) && rank(w) > 0 ==> rank(after) < rank(w))
  }

  lemma {:induction false} SlowTurnsLowerRank(cfg: Config, w: World, e: Env, gone: seq<set<ObjectKey>>, inv: World -> bool,
                                              rank: World -> nat)
    requires inv(w) && Ranks(cfg, e, inv, rank)
    ensures var after := SlowTurns(cfg, w, e, gone);
            inv(after) && (rank(after) == 0 || rank(after) + Completed(cfg, w, e, gone) <= rank(w))
    decreases |gone|
  {
    if gone != [] {
      SlowTurnsLowerRank(cfg, w, e, gone[..|gone| - 1], inv, rank);
    }
  }

  ghost predicate Lagging(inv: World -> bool, lag: World -> nat, success: bool, w: World, after: World) {
    inv(after) && (success || (0 < lag(w) && lag(after) <= lag(w) && (Settled(after) ==> lag(after) < lag(w))))
  }

  /** A lag that, as long as there is no success, no slow turn raises and every one lowers which leaves nothing terminating. */
  ghost predicate Lags(cfg: Config, e: Env, inv: World -> bool, lag: World -> nat, success: World -> bool) {
    forall w, gone | inv(w) :: Lagging(inv, lag, success(w), w, SlowTurn(cfg, w, e, gone))
  }

  lemma {:induction false} LagOrSuccess(cfg: Config, w: World, e: Env, gone: seq<set<ObjectKey>>, inv: World -> bool,
                                        lag: World -> nat, success: World -> bool) returns (i: nat)
    requires inv(w) && Lags(cfg, e, inv, lag, success)
    ensures i <= |gone| && inv(SlowTurns(cfg, w, e, gone))
    ensures success(SlowTurns(cfg, w, e, gone[..i])) ||
            (i == |gone| && lag(SlowTurns(cfg, w, e, gone)) + Completed(cfg, w, e, gone) <= lag(w))
    ensures NoneBefore(cfg, w, e, gone, inv, success, i)
    decreases |gone|
  {
    i := |gone|;
    assert gone[..i] == gone;
    if gone != [] {
      var init := gone[..|gone| - 1];
      var j := LagOrSuccess(cfg, w, e, init, inv, lag, success);
      assert init[..j] == gone[..j];
      if success(SlowTurns(cfg, w, e, init[..j])) {
        i := j;
      }
      StillNone(cfg, w, e, gone, inv, success, j, i);
    }
  }

  /** No success before turn `i`. */
  ghost predicate NoneBefore(cfg: Config, w: World, e: Env, gone: seq<set<ObjectKey>>, inv: World -> bool, success: World -> bool,
                             i: nat)
    requires i <= |gone|
  {
    forall j | 0 <= j < i :: inv(SlowTurns(cfg, w, e, gone[..j])) && !success(SlowTurns(cfg, w, e, gone[..j]))
  }

  lemma StillNone(cfg: Config, w: World, e: Env, gone: seq<set<ObjectKey>>, inv: World -> bool, success: World -> bool,
                  j: nat, i: nat)
    requires |gone| > 0 && j <= |gone| - 1 && inv(SlowTurns(cfg, w, e, gone[..|gone| - 1]))
    requires NoneBefore(cfg, w, e, gone[..|gone| - 1], inv, success, j)
    requires i == j || (j == |gone| - 1 && i == |gone| && !success(SlowTurns(cfg, w, e, gone[..|gone| - 1])))
    ensures NoneBefore(cfg, w, e, gone, inv, success, i)
  {
    var init := gone[..|gone| - 1];
    forall k | 0 <= k < i ensures inv(SlowTurns(cfg, w, e, gone[..k])) && !success(SlowTurns(cfg, w, e, gone[..k])) {
      assert gone[..k] == init[..k];
    }
  }

  /** Among slow turns of which as many leave nothing terminating, some are followed by success; the first of these is found. */
  lemma SuccessWithin(cfg: Config, w: World, e: Env, gone: seq<set<ObjectKey>>, inv: World -> bool, lag: World -> nat,
                      success: World -> bool) returns (i: nat)
    requires inv(w) && Lags(cfg, e, inv, lag, success) && Completed(cfg, w, e, gone) >= lag(w)
    ensures i <= |gone| && success(SlowTurns(cfg, w, e, gone[..i])) && NoneBefore(cfg, w, e, gone, inv, success, i)
  {
    i := LagOrSuccess(cfg, w, e, gone, inv, lag, success);
    assert gone[..|gone|] == gone;
    var after := SlowTurn(cfg, SlowTurns(cfg, w, e, gone), e, {});
  }

  lemma TurnIsSlow(cfg: Config, w: World, e: Env)
    ensures Turn(cfg, w, e) == SlowTurn(cfg, w, e, Reconcile(cfg, w, e).world.cluster.Keys) && Settled(Turn(cfg, w, e))
  {
  }

  /** Turns are slow turns that leave nothing terminating. */
  lemma {:induction false} TurnsAreSlow(cfg: Config, w: World, e: Env, n: nat) returns (gone: seq<set<ObjectKey>>)
    ensures |gone| == n && SlowTurns(cfg, w, e, gone) == Turns(cfg, w, e, n) && Completed(cfg, w, e, gone) == n
  {
    if n == 0 {
      gone := [];
    } else {
      var init := TurnsAreSlow(cfg, w, e, n - 1);
      var before := Turns(cfg, w, e, n - 1);
      TurnIsSlow(cfg, before, e);
      gone := init + [Reconcile(cfg, before, e).world.cluster.Keys];
      assert gone[..n - 1] == init;
    }
  }

  // ---------------------------------------------------------------- stages without faults

  /** The chart's CRDs that a round creates if they are missing. */
  function Reinstalled(o: Object, mode: RenderMode, crds: set<ObjectKey>): set<ObjectKey> {
    if mode == Helm && (o.deleting || !IsTrue(o.status.conditions, HelmCRDs)) then crds else {}
  }

  /** The round has nothing to register first. */
  ghost predicate Registered(o: Object, mode: RenderMode) {
    mode == Helm ==> HelmCRDs in o.status.conditions
  }

  function ConditionsWithCRDs(o: Object, mode: RenderMode): Conditions {
    if mode == Helm && (o.deleting || !IsTrue(o.status.conditions, HelmCRDs))
    then o.status.conditions[HelmCRDs := true]
    else o.status.conditions
  }

  lemma CalmPrepare(c: Ctx, mode: RenderMode, crds: set<ObjectKey>, target: seq<Resource>)
    requires Registered(c.mem, mode) && Settled(c.world)
    ensures var p := Prepare(c, CalmEnv(mode, crds, target));
            && p.Go?
            && p.ctx.world.stored == c.world.stored
            && p.ctx.world.cluster.Keys == c.world.cluster.Keys + Reinstalled(c.mem, mode, crds)
            && Settled(p.ctx.world)
            && p.ctx.mem == c.mem.(status := c.mem.status.(conditions := ConditionsWithCRDs(c.mem, mode)))
  {
  }

  /** The conditions in memory once the resources are rendered. */
  function ConditionsOnceRendered(o: Object, mode: RenderMode): Conditions {
    var registered := Register(Register(o.status.conditions, Resources), Installation);
    ConditionsWithCRDs(o.(status := o.status.(conditions := registered)), mode)[Resources := true]
  }

  /** A round with nothing to acknowledge or register first goes straight on to pruning. */
  lemma CalmUntilPrune(cfg: Config, w: World, mode: RenderMode, crds: set<ObjectKey>, target: seq<Resource>)
      returns (c: Ctx)
    requires Settled(w) && w.stored.Some? && Registered(w.stored.value, mode)
    requires var o := w.stored.value;
             && o.status.state != StateUnset
             && (if o.deleting then o.status.state == StateDeleting else Own in o.finalizers)
    ensures var o := w.stored.value;
            var wanted := if o.deleting then [] else target;
            var e := CalmEnv(mode, crds, target);
            && c.world.stored == w.stored && Settled(c.world)
            && c.world.cluster.Keys == w.cluster.Keys + Reinstalled(o, mode, crds)
            && c.mem == o.(status := o.status.(conditions := ConditionsOnceRendered(o, mode)))
            && Reconcile(cfg, w, e) ==
               AfterPrune(PruneDiff(cfg, c, e, Dropped(cfg.matcher, o.status.synced, wanted)), e, wanted)
  {
    var e := CalmEnv(mode, crds, target);
    var c1 := Initialize(Ctx(w.stored.value, w, [])).ctx;
    CalmPrepare(c1, mode, crds, target);
    c := RenderResources(Prepare(c1, e).ctx, e).ctx;
  }

  /** A cleanup without refusals is done exactly when nothing was there; otherwise all of it is gone after settling. */
  lemma CalmCleanup(c: Ctx, e: Env, keys: set<ObjectKey>)
    requires e.deleteFaults == {} && Settled(c.world)
    ensures var p := Cleanup(c, e, keys);
            && p.ctx.mem == c.mem && p.ctx.world.stored == c.world.stored
            && (c.world.cluster.Keys !! keys ==> p.Clean? && p.ctx.world.cluster == c.world.cluster)
            && (!(c.world.cluster.Keys !! keys) ==> p.Waiting?)
            && Settle(p.ctx.world).cluster.Keys == c.world.cluster.Keys - keys
  {
    var outcomes := Outcomes(c.world.cluster, keys, {});
    forall k | k in keys ensures outcomes[k] == if k in c.world.cluster then Accepted else NotFound {
      assert outcomes[k] in outcomes.Values;
    }
    if k :| k in keys && k in c.world.cluster {
      assert outcomes[k] in outcomes.Values;
    }
  }
}

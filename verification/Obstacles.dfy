/** Runs of a new object that end where a calm surrounding does not help: a deletion that never ends, a loop that never succeeds
    and one that never comes to rest. */
module Obstacles {
  import opened Identity
  import opened Model
  import opened Protocol
  import opened Runs
  import opened Calm
  import opened Convergence
  import D = Deletion

  /** A new object in an empty cluster. */
  function NewSystem(resource: Option<ObjectKey>): System {
    System(World(Some(Object(NewStatus, {}, false, resource, 0)), map[]), {}, {}, {}, [])
  }

  // ---------------------------------------------------------------- a run that tracks a given list

  ghost predicate AtRound(w: World, resource: Option<ObjectKey>, target: seq<Resource>, n: nat) {
    && Steady(w) && Settled(w)
    && var o := w.stored.value;
    && o.resource == resource && HelmCRDs !in o.status.conditions
    && (n < 3 ==> w.cluster == map[] && o.status.synced == [] && !IsReady(o))
    && (n == 0 ==> o.status == NewStatus && o.finalizers == {})
    && (n == 1 ==> o.status.state == StateProcessing && o.finalizers == {})
    && (n >= 2 ==> o.status.state != StateUnset && Own in o.finalizers)
    && (n >= 3 ==> o.status.synced == target && (target == [] ==> Guarded(o)))
  }

  lemma FirstRounds(cfg: Config, w: World, resource: Option<ObjectKey>, target: seq<Resource>, n: nat)
    requires n < 2 && AtRound(w, resource, target, n)
    ensures AtRound(Reconcile(cfg, w, CalmEnv(Raw, {}, target)).world, resource, target, n + 1)
  {
  }

  lemma NewListIsSeen(target: seq<Resource>)
    ensures DiffOf([], target) != [] <==> target != []
    ensures forall m :: Dropped(m, [], target) == {}
  {
    DiffEmptyIffCovered([], target);
    assert IDs([]) == {};
    if target != [] {
      assert target[0] in target && target[0].ID() in IDs(target);
    }
  }

  lemma ThirdRound(cfg: Config, w: World, resource: Option<ObjectKey>, target: seq<Resource>)
    requires AtRound(w, resource, target, 2)
    ensures AtRound(Reconcile(cfg, w, CalmEnv(Raw, {}, target)).world, resource, target, 3)
  {
    NewListIsSeen(target);
    SyncingRound(cfg, w, Goal(Raw, {}, target));
  }

  lemma NextRound(cfg: Config, w: World, resource: Option<ObjectKey>, target: seq<Resource>, n: nat)
    requires n < 3 && AtRound(w, resource, target, n)
    ensures AtRound(Reconcile(cfg, w, CalmEnv(Raw, {}, target)).world, resource, target, n + 1)
  {
    if n < 2 {
      FirstRounds(cfg, w, resource, target, n);
    } else {
      ThirdRound(cfg, w, resource, target);
    }
  }

  lemma LastRound(cfg: Config, s: System, init: seq<Move>, e: Env)
    ensures Exec(cfg, s, init + [Reconciled(e)]).world == Reconcile(cfg, Exec(cfg, s, init).world, e).world
  {
    assert (init + [Reconciled(e)])[..|init|] == init;
  }

  lemma RoundsAreLegal(cfg: Config, s: System, moves: seq<Move>)
    requires forall m | m in moves :: m.Reconciled?
    ensures Legal(cfg, s, moves)
  {
    forall i | 0 <= i < |moves| ensures Allowed(Exec(cfg, s, moves[..i]), moves[i]) {
      assert moves[i] in moves;
    }
  }

  /** Three rounds without faults track the target. */
  lemma {:induction false} TrackingRun(cfg: Config, resource: Option<ObjectKey>, target: seq<Resource>, n: nat)
      returns (moves: seq<Move>)
    requires n <= 3
    ensures |moves| == n && Legal(cfg, NewSystem(resource), moves) && forall m | m in moves :: m.Reconciled?
    ensures AtRound(Exec(cfg, NewSystem(resource), moves).world, resource, target, n)
  {
    if n == 0 {
      moves := [];
    } else {
      var init := TrackingRun(cfg, resource, target, n - 1);
      moves := init + [Reconciled(CalmEnv(Raw, {}, target))];
      RoundsAreLegal(cfg, NewSystem(resource), moves);
      NextRound(cfg, Exec(cfg, NewSystem(resource), init).world, resource, target, n - 1);
      LastRound(cfg, NewSystem(resource), init, CalmEnv(Raw, {}, target));
    }
  }

  /** A run ends with a move of somebody else. */
  lemma ThenOutside(cfg: Config, s: System, moves: seq<Move>, next: World) returns (more: seq<Move>)
    requires Legal(cfg, s, moves) && LeavesObject(Exec(cfg, s, moves).world, next)
    ensures more == moves + [Outside(next)] && Legal(cfg, s, more) && Exec(cfg, s, more).world == next
  {
    more := moves + [Outside(next)];
    assert more[..|moves|] == moves;
    forall i | 0 <= i < |more| ensures Allowed(Exec(cfg, s, more[..i]), more[i]) {
      if i < |moves| {
        assert more[..i] == moves[..i] && Allowed(Exec(cfg, s, moves[..i]), moves[i]);
      }
    }
  }

  // ---------------------------------------------------------------- deletions that never end

  /** Somebody deletes an object, after its spec has been changed to a chart one of whose definitions it tracks. */
  lemma TrackedDefinitionBlocks(cfg: Config, r: Resource, target: seq<Resource>) returns (moves: seq<Move>)
    ensures Fresh(NewSystem(None)) && Legal(cfg, NewSystem(None), moves)
    ensures var w := Exec(cfg, NewSystem(None), moves).world;
            && D.Stuck(cfg, w, Helm, {r.Key()})
            && forall gone :: !D.Released(SlowTurns(cfg, w, CalmEnv(Helm, {r.Key()}, target), gone))
  {
    var init := TrackingRun(cfg, None, [r], 3);
    var w := Exec(cfg, NewSystem(None), init).world;
    var next := w.(stored := Some(w.stored.value.(deleting := true)));
    moves := ThenOutside(cfg, NewSystem(None), init, next);
    assert r in [r] && r.Key() in Keys([r]);
    assert D.Stuck(cfg, next, Helm, {r.Key()});
    forall gone ensures !D.Released(SlowTurns(cfg, next, CalmEnv(Helm, {r.Key()}, target), gone)) {
      D.StuckForever(cfg, next, Helm, {r.Key()}, target, gone);
      D.StuckIsNotReleased(cfg, SlowTurns(cfg, next, CalmEnv(Helm, {r.Key()}, target), gone), Helm, {r.Key()});
    }
  }

  /** Somebody takes the custom resource out of the spec and deletes the object: nobody takes its finalizer away. */
  lemma OrphanedFinalizerBlocks(cfg: Config, k: ObjectKey, mode: RenderMode, crds: set<ObjectKey>, target: seq<Resource>)
      returns (moves: seq<Move>)
    ensures Fresh(NewSystem(Some(k))) && Legal(cfg, NewSystem(Some(k)), moves)
    ensures var w := Exec(cfg, NewSystem(Some(k)), moves).world;
            && D.Stuck(cfg, w, mode, crds)
            && forall gone :: !D.Released(SlowTurns(cfg, w, CalmEnv(mode, crds, target), gone))
  {
    var init := TrackingRun(cfg, Some(k), [], 3);
    var w := Exec(cfg, NewSystem(Some(k)), init).world;
    var next := w.(stored := Some(w.stored.value.(deleting := true, resource := None)));
    moves := ThenOutside(cfg, NewSystem(Some(k)), init, next);
    assert D.Stuck(cfg, next, mode, crds);
    forall gone ensures !D.Released(SlowTurns(cfg, next, CalmEnv(mode, crds, target), gone)) {
      D.StuckForever(cfg, next, mode, crds, target, gone);
      D.StuckIsNotReleased(cfg, SlowTurns(cfg, next, CalmEnv(mode, crds, target), gone), mode, crds);
    }
  }

  // ---------------------------------------------------------------- loops that never succeed or rest

  /** The spec is changed to a chart one of whose definitions was tracked, and whose target is empty. */
  lemma TrackedDefinitionConflicts(cfg: Config, r: Resource) returns (moves: seq<Move>)
    ensures Fresh(NewSystem(None)) && Legal(cfg, NewSystem(None), moves)
    ensures var w, g := Exec(cfg, NewSystem(None), moves).world, Goal(Helm, {r.Key()}, []);
            Conflict(cfg, w, g) && forall gone :: !Succeeds(cfg, w, g, gone)
  {
    var g := Goal(Helm, {r.Key()}, []);
    moves := TrackingRun(cfg, None, [r], 3);
    var w := Exec(cfg, NewSystem(None), moves).world;
    assert r in [r] && r.Key() in Dropped(cfg.matcher, [r], []);
    assert Conflict(cfg, w, g);
    forall gone ensures !Succeeds(cfg, w, g, gone) {
      ConflictForever(cfg, w, g, gone);
    }
  }

  lemma ThreeForTwo(m: Matcher, a: Resource, b: Resource)
    requires a.MatchKey(m) != b.MatchKey(m)
    ensures DiffOf([a, b], [a, a, a]) == [] && b.Key() in Dropped(m, [a, b], [a, a, a])
  {
    DiffEmptyIffCovered([a, b], [a, a, a]);
    assert a in [a, b] && b in [a, b] && forall r | r in [a, a, a] :: r == a;
    assert b.MatchKey(m) !in MatchKeys(m, [a, a, a]);
  }

  lemma FlappingFrom(cfg: Config, w: World, a: Resource, b: Resource)
    requires a.MatchKey(cfg.matcher) != b.MatchKey(cfg.matcher) && AtRound(w, Some(b.Key()), [a, b], 3)
    ensures Flapping(cfg, w, Goal(Raw, {}, [a, a, a]))
  {
    ThreeForTwo(cfg.matcher, a, b);
  }

  lemma NeverRests(cfg: Config, w: World, g: Goal)
    requires Flapping(cfg, w, g)
    ensures forall gone :: !Rests(cfg, SlowTurns(cfg, w, g.Env(), gone), g)
  {
    forall gone ensures !Rests(cfg, SlowTurns(cfg, w, g.Env(), gone), g) {
      FlappingForever(cfg, w, g, gone);
    }
  }

  /** One of two tracked objects, which is also the custom resource of the spec, is dropped, and the other one is in the new target
      three times: the comparison sees no change, so what the hook creates is pruned again and again. */
  lemma RepeatedTargetFlaps(cfg: Config, a: Resource, b: Resource) returns (moves: seq<Move>)
    requires a.MatchKey(cfg.matcher) != b.MatchKey(cfg.matcher)
    ensures Fresh(NewSystem(Some(b.Key()))) && Legal(cfg, NewSystem(Some(b.Key())), moves)
    ensures var w, g := Exec(cfg, NewSystem(Some(b.Key())), moves).world, Goal(Raw, {}, [a, a, a]);
            Flapping(cfg, w, g) && forall gone :: !Rests(cfg, SlowTurns(cfg, w, g.Env(), gone), g)
  {
    moves := TrackingRun(cfg, Some(b.Key()), [a, b], 3);
    var w := Exec(cfg, NewSystem(Some(b.Key())), moves).world;
    FlappingFrom(cfg, w, a, b);
    NeverRests(cfg, w, Goal(Raw, {}, [a, a, a]));
  }
}

/** The tracked list never loses a resource that is not accounted for, whatever fails. */
module Tracking {
  import opened Identity
  import opened Model
  import opened Protocol
  import opened Frames
  import opened Runs

  function NotFoundFor(keys: set<ObjectKey>): map<ObjectKey, DeleteOutcome> {
    map k | k in keys :: NotFound
  }

  /** A round replaces the tracked list: it is no deletion, everything dropped was reported gone, the whole new target was
      applied, and the list is the new target. */
  ghost predicate Replaces(cfg: Config, o: Object, e: Env, log: seq<Event>, after: seq<Resource>) {
    && !o.deleting
    && e.rendering.Rendered? && after == e.rendering.target
    && Keys(after) * e.applyFaults == {}
    && e.write
    && Cleaned(NotFoundFor(Dropped(cfg.matcher, o.status.synced, after)), false) in log
  }

  lemma CleanMeansNotFound(c: Ctx, e: Env, keys: set<ObjectKey>)
    requires !c.mem.deleting && Cleanup(c, e, keys).Clean?
    ensures Cleaned(NotFoundFor(keys), false) in Cleanup(c, e, keys).ctx.log
  {
    var outcomes := Outcomes(c.world.cluster, keys, e.deleteFaults);
    forall k | k in keys ensures outcomes[k] == NotFound {
      assert outcomes[k] in outcomes.Values;
    }
    assert outcomes == NotFoundFor(keys);
  }

  lemma PrunedTracking(cfg: Config, c: Ctx, e: Env)
    requires c.world.stored.Some? && SameButStatus(c.mem, c.world.stored.value)
    requires c.mem.deleting || e.rendering.Rendered?
    ensures var target := Target(c.mem.deleting, e);
            var keys := Dropped(cfg.matcher, c.mem.status.synced, target);
            var r := AfterPrune(PruneDiff(cfg, c, e, keys), e, target);
            r.world.stored.Some? ==>
              || r.world.stored.value.status.synced == c.mem.status.synced
              || Replaces(cfg, c.world.stored.value, e, r.log, r.world.stored.value.status.synced)
  {
    var target := Target(c.mem.deleting, e);
    var keys := Dropped(cfg.matcher, c.mem.status.synced, target);
    var p := PruneDiff(cfg, c, e, keys);
    PruneFrame(cfg, c, e, keys);
    if p.Clean? && !c.mem.deleting {
      SyncFrame(p.ctx, e, target);
      CleanMeansNotFound(c, e, keys);
      var cleaned := Cleaned(NotFoundFor(keys), false);
      assert cleaned in SyncResources(p.ctx, e, target).ctx.log;
    }
  }

  /** One round keeps the persisted list as it is or replaces it under the conditions of `Replaces`. */
  lemma RoundTracking(cfg: Config, w: World, e: Env)
    requires w.stored.Some?
    ensures var r := Reconcile(cfg, w, e);
            r.world.stored.Some? ==>
              || r.world.stored.value.status.synced == w.stored.value.status.synced
              || Replaces(cfg, w.stored.value, e, r.log, r.world.stored.value.status.synced)
  {
    if e.get && !e.skip {
      var c := Ctx(w.stored.value, w, []);
      var init := Initialize(c);
      InitializeFrame(c);
      if init.Go? && (c.mem.deleting || Own in c.mem.finalizers) {
        var prep := Prepare(init.ctx, e);
        PrepareFrame(init.ctx, e);
        if prep.Go? {
          var ready := RenderResources(prep.ctx, e);
          RenderFrame(prep.ctx, e);
          if ready.Go? {
            PrunedTracking(cfg, ready.ctx, e);
          }
        }
      }
    }
  }

  /** The account of a resource that leaves the list in one round: the new target, applied in full, matches it, or its
      delete answered that it is not there. */
  ghost predicate Explained(cfg: Config, r: Resource, e: Env, log: seq<Event>) {
    || (e.rendering.Rendered? && r.MatchKey(cfg.matcher) in MatchKeys(cfg.matcher, e.rendering.target)
        && Keys(e.rendering.target) * e.applyFaults == {})
    || (exists outcomes :: Cleaned(outcomes, false) in log && r.Key() in outcomes && outcomes[r.Key()] == NotFound)
  }

  lemma RoundExplains(cfg: Config, w: World, e: Env, r: Resource)
    requires w.stored.Some? && Reconcile(cfg, w, e).world.stored.Some?
    requires r in w.stored.value.status.synced
    requires r.ID() !in IDs(Reconcile(cfg, w, e).world.stored.value.status.synced)
    ensures !w.stored.value.deleting && Explained(cfg, r, e, Reconcile(cfg, w, e).log)
  {
    RoundTracking(cfg, w, e);
    var round := Reconcile(cfg, w, e);
    var before, after := w.stored.value.status.synced, round.world.stored.value.status.synced;
    assert r.ID() in IDs(before);
    if r.MatchKey(cfg.matcher) !in MatchKeys(cfg.matcher, after) {
      var outcomes := NotFoundFor(Dropped(cfg.matcher, before, after));
      assert r.Key() in outcomes && Cleaned(outcomes, false) in round.log;
    }
  }

  ghost predicate Tracks(s: System, r: Resource) {
    s.world.stored.Some? && r.ID() in IDs(s.world.stored.value.status.synced)
  }

  /** Tracking safety over whole runs and under arbitrary failures: between a state that tracks an identity and a later
      one that does not although the object is still there, some round of an object that is not being deleted accounts for
      a resource of that identity. */
  lemma {:induction false} TrackingSafety(cfg: Config, s: System, moves: seq<Move>, i: nat, j: nat, r: Resource)
      returns (n: nat, x: Resource)
    requires Legal(cfg, s, moves) && i <= j <= |moves|
    requires Tracks(At(cfg, s, moves, i), r)
    requires At(cfg, s, moves, j).world.stored.Some? && !Tracks(At(cfg, s, moves, j), r)
    ensures i <= n < j && moves[n].Reconciled? && x.ID() == r.ID()
    ensures var before := At(cfg, s, moves, n).world;
            && before.stored.Some? && !before.stored.value.deleting
            && x in before.stored.value.status.synced
            && Explained(cfg, x, moves[n].env, Reconcile(cfg, before, moves[n].env).log)
    decreases j
  {
    assert i < j;
    var before := At(cfg, s, moves, j - 1);
    NextState(cfg, s, moves, j - 1);
    assert Allowed(Exec(cfg, s, moves[..j - 1]), moves[j - 1]);
    StoredWasThere(cfg, before, moves[j - 1]);
    if Tracks(before, r) {
      n := j - 1;
      x :| x in before.world.stored.value.status.synced && x.ID() == r.ID();
      RoundExplains(cfg, before.world, moves[n].env, x);
    } else {
      n, x := TrackingSafety(cfg, s, moves, i, j - 1, r);
    }
  }

  lemma StoredWasThere(cfg: Config, s: System, m: Move)
    requires Allowed(s, m) && Step(cfg, s, m).world.stored.Some?
    ensures s.world.stored.Some?
    ensures m.Outside? ==> Step(cfg, s, m).world.stored.value.status == s.world.stored.value.status
  {
  }
}

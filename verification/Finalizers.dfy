/** The two finalizers of the object and how rounds hand them over. */
module Finalizers {
  import opened Identity
  import opened Model
  import opened Protocol
  import opened Frames
  import opened Runs

  ghost predicate Has(o: Option<Object>, f: Finalizer) {
    o.Some? && f in o.value.finalizers
  }

  ghost predicate Deleting(o: Option<Object>) {
    o.Some? ==> o.value.deleting
  }

  /** What becomes of the object in one step. */
  ghost predicate Handover(before: Option<Object>, after: Option<Object>) {
    && (Deleting(before) ==> Deleting(after))
    && (Has(after, OfCustomResource) && !Has(before, OfCustomResource) ==> !Deleting(before))
    && (Has(before, OfCustomResource) && !Has(after, OfCustomResource) ==> Deleting(before))
    && (Has(after, Own) && !Has(before, Own) ==> !Deleting(before))
    && (Has(before, Own) && !Has(after, Own) ==> Deleting(before))
    && (Has(before, Own) && Has(before, OfCustomResource) ==> Has(after, Own) || Has(after, OfCustomResource))
    && (Has(before, Own) && !Has(after, Own) && before.value.resource.Some? ==> !Has(before, OfCustomResource))
  }

  lemma PrunedHandover(cfg: Config, c: Ctx, e: Env, target: seq<Resource>, keys: set<ObjectKey>)
    requires c.world.stored.Some? && SameButStatus(c.mem, c.world.stored.value)
    requires c.mem.deleting || Own in c.mem.finalizers
    ensures Handover(c.world.stored, AfterPrune(PruneDiff(cfg, c, e, keys), e, target).world.stored)
  {
    var p := PruneDiff(cfg, c, e, keys);
    PruneFrame(cfg, c, e, keys);
    if p.Clean? && !c.mem.deleting {
      SyncFrame(p.ctx, e, target);
    }
    if Own in c.mem.finalizers && OfCustomResource in c.mem.finalizers {
      assert OfCustomResource in c.mem.finalizers - {Own} && Own in c.mem.finalizers - {OfCustomResource};
    }
  }

  lemma RoundHandover(cfg: Config, w: World, e: Env)
    ensures Handover(w.stored, Reconcile(cfg, w, e).world.stored)
  {
    if w.stored.Some? && e.get && !e.skip {
      var c := Ctx(w.stored.value, w, []);
      var init := Initialize(c);
      InitializeFrame(c);
      if init.Go? && (c.mem.deleting || Own in c.mem.finalizers) {
        var prep := Prepare(init.ctx, e);
        PrepareFrame(init.ctx, e);
        if prep.Go? {
          var ready := RenderResources(prep.ctx, e);
          RenderFrame(prep.ctx, e);
          if ready.Go? {
            var target := Target(c.mem.deleting, e);
            PrunedHandover(cfg, ready.ctx, e, target, Dropped(cfg.matcher, prep.ctx.mem.status.synced, target));
          }
        }
      }
    }
  }

  lemma StepHandover(cfg: Config, s: System, m: Move)
    requires Allowed(s, m)
    ensures Handover(s.world.stored, Step(cfg, s, m).world.stored)
  {
    match m
    case Outside(next) =>
    case Reconciled(e) => RoundHandover(cfg, s.world, e);
  }

  // ---------------------------------------------------------------- chains of states

  ghost predicate HandedOver(os: seq<Option<Object>>) {
    forall n | 0 <= n < |os| - 1 :: Handover(os[n], os[n + 1])
  }

  /** The object in every state of a run. */
  ghost function Chain(cfg: Config, s: System, moves: seq<Move>): (os: seq<Option<Object>>)
    ensures |os| == |moves| + 1 && forall n | 0 <= n <= |moves| :: os[n] == At(cfg, s, moves, n).world.stored
  {
    seq(|moves| + 1, n requires 0 <= n <= |moves| => At(cfg, s, moves, n).world.stored)
  }

  lemma RunsHandOver(cfg: Config, s: System, moves: seq<Move>)
    requires Legal(cfg, s, moves)
    ensures HandedOver(Chain(cfg, s, moves))
  {
    var os := Chain(cfg, s, moves);
    forall n | 0 <= n < |os| - 1 ensures Handover(os[n], os[n + 1]) {
      assert Allowed(Exec(cfg, s, moves[..n]), moves[n]);
      StepHandover(cfg, At(cfg, s, moves, n), moves[n]);
      NextState(cfg, s, moves, n);
    }
  }

  /** Once the object is being deleted, a finalizer of ours that is off stays off. */
  lemma {:induction false} AbsentStaysAbsent(os: seq<Option<Object>>, j: nat, k: nat, f: Finalizer)
    requires HandedOver(os) && j <= k < |os| && f in {Own, OfCustomResource}
    requires Deleting(os[j]) && !Has(os[j], f)
    ensures Deleting(os[k]) && !Has(os[k], f)
    decreases k - j
  {
    if j < k {
      AbsentStaysAbsent(os, j, k - 1, f);
      assert Handover(os[k - 1], os[k - 1 + 1]);
    }
  }

  lemma {:induction false} DroppedWhileDeleting(os: seq<Option<Object>>, i: nat, j: nat, f: Finalizer)
    requires HandedOver(os) && i <= j < |os| && f in {Own, OfCustomResource}
    requires Has(os[i], f) && !Has(os[j], f)
    ensures Deleting(os[j])
    decreases j - i
  {
    if i < j {
      assert Handover(os[j - 1], os[j - 1 + 1]);
      if !Has(os[j - 1], f) {
        DroppedWhileDeleting(os, i, j - 1, f);
      }
    }
  }

  /** Where a finalizer of ours goes off, the object is being deleted. */
  lemma DroppedOnlyInDeletion(cfg: Config, s: System, moves: seq<Move>, i: nat, j: nat, f: Finalizer)
    requires Legal(cfg, s, moves) && i <= j <= |moves| && f in {Own, OfCustomResource}
    requires Has(At(cfg, s, moves, i).world.stored, f) && !Has(At(cfg, s, moves, j).world.stored, f)
    ensures Deleting(At(cfg, s, moves, j).world.stored)
  {
    RunsHandOver(cfg, s, moves);
    DroppedWhileDeleting(Chain(cfg, s, moves), i, j, f);
  }

  /** No run ever brings a removed finalizer back, although the round that removes the custom resource's finalizer goes on
      with a copy of the object that still carries it. */
  lemma RemovedFinalizerNeverReturns(cfg: Config, s: System, moves: seq<Move>, i: nat, j: nat, k: nat, f: Finalizer)
    requires Legal(cfg, s, moves) && i <= j <= k <= |moves| && f in {Own, OfCustomResource}
    requires Has(At(cfg, s, moves, i).world.stored, f) && !Has(At(cfg, s, moves, j).world.stored, f)
    ensures !Has(At(cfg, s, moves, k).world.stored, f)
  {
    RunsHandOver(cfg, s, moves);
    DroppedWhileDeleting(Chain(cfg, s, moves), i, j, f);
    AbsentStaysAbsent(Chain(cfg, s, moves), j, k, f);
  }
}

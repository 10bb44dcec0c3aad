/** What the result of a round tells: whether it comes back, and why not. */
module Results {
  import opened Identity
  import opened Model
  import opened Protocol
  import opened Endings
  import opened Journals
  import L = Landing

  /** The object was read and is not skipped, it has a state, and it is guarded or its deletion acknowledged. */
  predicate Prepared(w: World, e: Env) {
    && w.stored.Some? && e.get && !e.skip
    && var o := w.stored.value;
    && o.status.state != StateUnset && (if o.deleting then o.status.state == StateDeleting else Own in o.finalizers)
  }

  /** Spec, client, definitions, rendering and the tracked list are all available. */
  predicate Available(o: Object, e: Env) {
    && e.spec.Some? && e.client && e.current
    && (e.spec.value == Helm ==> HelmCRDs in o.status.conditions)
    && (Consults(o, e) ==> CRDsPass(e))
    && (o.deleting || e.rendering.Rendered?)
  }

  /** A delete of these keys is refused by nobody and finds nothing. */
  predicate Absent(keys: set<ObjectKey>, e: Env, present: set<ObjectKey>) {
    keys * e.deleteFaults == {} && keys * present == {}
  }

  /** An object that is being deleted still carries the reconciler's finalizer, and all that it is in charge of is gone. */
  predicate Releases(cfg: Config, w: World, e: Env) {
    && Prepared(w, e) && w.stored.value.deleting && Own in w.stored.value.finalizers
    && var o, present := w.stored.value, Present(w, w.stored.value, e);
    && Available(o, e) && ResourceGone(o, e, present) && Absent(Keys(o.status.synced), e, present)
    && (cfg.deletePrerequisites && e.spec == Some(Helm) ==> Absent(Definitions(e), e, present))
  }

  /** Nothing is to be pruned, the target is applied in full and tracked, the hook and the check pass, and the object is ready. */
  predicate Succeeds(cfg: Config, w: World, e: Env) {
    && Prepared(w, e) && !w.stored.value.deleting
    && var o, target := w.stored.value, Target(false, e);
    && Available(o, e) && Absent(Dropped(cfg.matcher, o.status.synced, target), e, Present(w, o, e))
    && Keys(target) * e.applyFaults == {} && DiffOf(o.status.synced, target) == []
    && L.HookPasses(o, e) && e.check == Passed
    && o.status.state == StateReady && Value(o.status.conditions, Installation) == Some(true)
  }

  lemma PreparedEnding(cfg: Config, w: World, e: Env)
    requires w.stored.Some?
    ensures !BeforePruning(EndingOf(cfg, w, e)) <==> Prepared(w, e) && Available(w.stored.value, e)
    ensures Prepared(w, e) && Available(w.stored.value, e) ==>
              EndingOf(cfg, w, e) == EndOfPruning(cfg, w.stored.value, e, Present(w, w.stored.value, e))
  {
    var o := w.stored.value;
    PastPruning(cfg, o, e, Present(w, o, e));
  }

  lemma ReleasingIff(cfg: Config, w: World, e: Env)
    requires w.stored.Some?
    ensures EndingOf(cfg, w, e).Releasing? <==> Releases(cfg, w, e)
  {
    PreparedEnding(cfg, w, e);
  }

  lemma AtRestIff(cfg: Config, w: World, e: Env)
    requires w.stored.Some?
    ensures EndingOf(cfg, w, e).AtRest? <==> Succeeds(cfg, w, e)
  {
    PreparedEnding(cfg, w, e);
  }

  lemma UnreadIff(cfg: Config, w: World, e: Env)
    requires w.stored.Some?
    ensures EndingOf(cfg, w, e).Unread? <==> !e.get || e.skip
  {
    if e.get && !e.skip {
      PreparedEnding(cfg, w, e);
    }
  }

  lemma ResultOfEnding(cfg: Config, w: World, e: Env)
    requires w.stored.Some?
    ensures Reconcile(cfg, w, e).result == ResultOf(EndingOf(cfg, w, e))
  {
    RoundIsTold(cfg, w, e);
  }

  /** The result of every round, from its answers. */
  lemma ResultIff(cfg: Config, w: World, e: Env)
    ensures var r := Reconcile(cfg, w, e);
            && (r.result == Ignored <==> w.stored.None? || !e.get || e.skip)
            && (r.result == Updated <==> Releases(cfg, w, e))
            && (r.result == OnSuccess <==> Succeeds(cfg, w, e))
    ensures Reconcile(cfg, w, e).result == Ignored ==> Reconcile(cfg, w, e).world == w && Reconcile(cfg, w, e).log == []
  {
    if w.stored.Some? {
      ResultOfEnding(cfg, w, e);
      UnreadIff(cfg, w, e);
      ReleasingIff(cfg, w, e);
      AtRestIff(cfg, w, e);
    }
  }

  // ---------------------------------------------------------------- what the events show

  function AllNotFound(keys: set<ObjectKey>): map<ObjectKey, DeleteOutcome> {
    map k | k in keys :: NotFound
  }

  lemma AbsentIsNotFound(keys: set<ObjectKey>, e: Env, present: set<ObjectKey>)
    requires Absent(keys, e, present)
    ensures Answers(keys, present, e.deleteFaults) == AllNotFound(keys)
  {
    assert forall k | k in keys :: k !in keys * e.deleteFaults && k !in keys * present;
  }

  /** A round that ends with the full update has reported gone everything the object is in charge of, and the definitions of
      the chart if they are to be deleted; and the update changes the object unless it is refused. */
  lemma UpdatedMeans(cfg: Config, w: World, e: Env)
    requires Reconcile(cfg, w, e).result == Updated
    ensures w.stored.Some? && w.stored.value.deleting && Own in w.stored.value.finalizers
    ensures var o, r := w.stored.value, Reconcile(cfg, w, e);
            && Cleaned(AllNotFound(Keys(o.status.synced)), true) in r.log
            && (o.resource.Some? ==> CustomResourceDeleted(o.resource.value, NotFound) in r.log)
            && (cfg.deletePrerequisites && e.spec == Some(Helm) ==>
                  e.chart.Chart? && PrerequisitesCleaned(AllNotFound(e.chart.crds)) in r.log)
            && (e.update ==> r.world.stored != w.stored)
  {
    ResultIff(cfg, w, e);
    ReleasingIff(cfg, w, e);
    RoundIsTold(cfg, w, e);
    RoundIsLogged(cfg, w, e);
    ReleasingJournal(cfg, w, w.stored.value, e);
  }

  lemma ReleasingJournal(cfg: Config, w: World, o: Object, e: Env)
    requires w.stored == Some(o) && Releases(cfg, w, e)
    ensures var log := Journal(cfg, w, o, e, Releasing);
            && Cleaned(AllNotFound(Keys(o.status.synced)), true) in log
            && (o.resource.Some? ==> CustomResourceDeleted(o.resource.value, NotFound) in log)
            && (cfg.deletePrerequisites && e.spec == Some(Helm) ==>
                  e.chart.Chart? && PrerequisitesCleaned(AllNotFound(e.chart.crds)) in log)
  {
    var present := Present(w, o, e);
    JournalOfPruning(cfg, w, o, e, Releasing);
    BodyOfDeletion(cfg, o, e, present, Releasing);
    AbsentIsNotFound(Keys(o.status.synced), e, present);
    assert Cleaned(AllNotFound(Keys(o.status.synced)), true) == Removing(cfg, o, e, present, Releasing)[0];
    if o.resource.Some? {
      assert CustomResourceDeleted(o.resource.value, NotFound) == Unhooking(o, e, present)[0];
    }
    if cfg.deletePrerequisites && e.spec == Some(Helm) {
      AbsentIsNotFound(e.chart.crds, e, present);
      assert PrerequisitesCleaned(AllNotFound(e.chart.crds)) == Removing(cfg, o, e, present, Releasing)[1];
    }
  }

  /** No status is patched. */
  ghost predicate Quiet(log: seq<Event>) {
    forall x | x in log :: !x.StatusWritten?
  }

  lemma QuietTogether(a: seq<Event>, b: seq<Event>)
    requires Quiet(a) && Quiet(b)
    ensures Quiet(a + b)
  {
  }

  lemma QuietRest(cfg: Config, w: World, o: Object, e: Env)
    requires !o.deleting
    ensures Quiet(Journal(cfg, w, o, e, AtRest))
  {
    var present := Present(w, o, e);
    var keys := Keys(Target(false, e));
    JournalOfPruning(cfg, w, o, e, AtRest);
    BodyOfSync(cfg, o, e, present, AtRest);
    ApplyingIs(o, e, present, AtRest);
    assert Quiet(Installing(w, o, e, ReadingBackFailed));
    assert Quiet(Concluding(o, e, present + keys, AtRest));
    QuietTogether([Applied(Target(false, e), Landed(e, keys), keys * e.applyFaults)], Concluding(o, e, present + keys, AtRest));
    QuietTogether([Cleaned(Answers(Excess(cfg, o, e), present, e.deleteFaults), false)], Applying(o, e, present, AtRest));
    QuietTogether(Installing(w, o, e, ReadingBackFailed), Body(cfg, o, e, present, AtRest));
    QuietTogether(Installing(w, o, e, ReadingBackFailed) + Body(cfg, o, e, present, AtRest), Closing(o, e, AtRest));
  }

  /** A round that succeeds has seen the target applied in full and no difference, has run a check that passed, and has neither
      written nor changed the status. */
  lemma SuccessMeans(cfg: Config, w: World, e: Env)
    requires Reconcile(cfg, w, e).result == OnSuccess
    ensures w.stored.Some? && !w.stored.value.deleting && e.rendering.Rendered? && Reconcile(cfg, w, e).world.stored.Some?
    ensures var o, target, r := w.stored.value, e.rendering.target, Reconcile(cfg, w, e);
            && DiffOf(o.status.synced, target) == [] && Keys(target) <= r.world.cluster.Keys
            && ReadyChecked(Passed) in r.log && Quiet(r.log)
            && r.world.stored.value.status == o.status && o.status.state == StateReady
  {
    ResultIff(cfg, w, e);
    AtRestIff(cfg, w, e);
    RoundIsTold(cfg, w, e);
    RoundIsLogged(cfg, w, e);
    var o, r := w.stored.value, Reconcile(cfg, w, e);
    QuietRest(cfg, w, o, e);
    RestingJournal(cfg, w, o, e);
    TargetIsThere(cfg, w, o, e);
  }

  lemma RestingJournal(cfg: Config, w: World, o: Object, e: Env)
    ensures ReadyChecked(e.check) in Journal(cfg, w, o, e, AtRest)
  {
    var present := Present(w, o, e);
    JournalOfPruning(cfg, w, o, e, AtRest);
    ApplyingIs(o, e, present, AtRest);
    var concluding := Concluding(o, e, present + Keys(Target(false, e)), AtRest);
    assert ReadyChecked(e.check) == concluding[|concluding| - 1];
    assert ReadyChecked(e.check) in Applying(o, e, present, AtRest);
  }

  lemma TargetIsThere(cfg: Config, w: World, o: Object, e: Env)
    requires Keys(Target(false, e)) * e.applyFaults == {}
    ensures Keys(Target(false, e)) <= ClusterAfter(AtRest, cfg, w, o, e).Keys
  {
    CreatedAtHook(AtRest, o, e);
  }

  /** Something brings the loop back: the round asks to be repeated, or it changed the object that the controller watches. */
  predicate ComesBack(w: World, r: Round) {
    r.result == Requeue || (r.result == Updated && r.world.stored != w.stored)
  }

  /** Every round that reads its object comes back, unless it succeeds or its full update is refused. */
  lemma RoundComesBack(cfg: Config, w: World, e: Env)
    requires w.stored.Some? && e.get && !e.skip
    ensures var r := Reconcile(cfg, w, e); ComesBack(w, r) || r.result == OnSuccess || (r.result == Updated && !e.update)
  {
    ResultIff(cfg, w, e);
    if Reconcile(cfg, w, e).result == Updated {
      UpdatedMeans(cfg, w, e);
    }
  }
}

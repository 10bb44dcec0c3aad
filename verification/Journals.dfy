/** What a round does, event by event, told from the world and the answers alone. */
module Journals {
  import opened Identity
  import opened Model
  import opened Protocol
  import opened Endings
  import L = Landing

  // ---------------------------------------------------------------- the events of a round

  /** How a delete of each key is answered. */
  function Answers(keys: set<ObjectKey>, present: set<ObjectKey>, faults: set<ObjectKey>): map<ObjectKey, DeleteOutcome> {
    map k | k in keys :: if k in faults then Refused else if k in present then Accepted else NotFound
  }

  function Installing(w: World, o: Object, e: Env, end: Ending): seq<Event> {
    if BeforeCRDs(end) || !Consults(o, e) || !e.chart.Chart? then [] else
    [PrerequisitesInstalled(e.chart.crds - e.crdFaults - w.cluster.Keys)]
  }

  /** The hook of a deletion. */
  function Unhooking(o: Object, e: Env, present: set<ObjectKey>): seq<Event> {
    match o.resource
    case None => []
    case Some(k) =>
      if !e.customResource then [CustomResourceDeleted(k, Refused)]
      else if k in present then [CustomResourceDeleted(k, Accepted)]
      else if e.hookRead && OfCustomResource in o.finalizers && e.hookWrite then
        [CustomResourceDeleted(k, NotFound), CustomResourceFinalizerDropped]
      else
        [CustomResourceDeleted(k, NotFound)]
  }

  function Cleaning(cfg: Config, o: Object, e: Env, present: set<ObjectKey>, end: Ending): seq<Event> {
    (if end.ResourceRemains? then [] else [Cleaned(Answers(Excess(cfg, o, e), present, e.deleteFaults), o.deleting)])
    + (if (end.PrerequisitesFailed? || end.PrerequisitesPending? || end.Releasing? || end.OthersRemain?)
          && RemovesDefinitions(cfg, e) && e.chart.Chart?
       then [PrerequisitesCleaned(Answers(e.chart.crds, present, e.deleteFaults))] else [])
  }

  function Applying(o: Object, e: Env, present: set<ObjectKey>, end: Ending): seq<Event> {
    var keys := Keys(Target(false, e));
    if !Applies(end) then [] else
    [Applied(Target(false, e), keys - (e.applyFaults - e.applyLanded), keys * e.applyFaults)]
    + (if (end.HookFailed? || Checks(end)) && o.resource.Some? && e.customResource
       then [CustomResourceCreated(ResourceOf(o) - present - keys)] else [])
    + (if Checks(end) && o.resource.Some? && OfCustomResource !in o.finalizers then [CustomResourceFinalizerAdded] else [])
    + (if Checks(end) then [ReadyChecked(e.check)] else [])
  }

  /** The last event: a finalizer comes or goes, or the status is patched. */
  function Closing(o: Object, e: Env, end: Ending): seq<Event> {
    var gone := o.deleting && FinalizersAfter(end, o, e) == {} && FinalizersAfter(end, o, e) != o.finalizers;
    if end.FinalizerMissing? && e.write then [OwnFinalizerAdded]
    else if end.Releasing? && e.update && Kept(o) == o.finalizers then [OwnFinalizerDropped]
    else if Patches(end) && e.write && !gone then [StatusWritten(StateAfter(end, o), TrackedAfter(end, o, e))]
    else []
  }

  function Journal(cfg: Config, w: World, o: Object, e: Env, end: Ending): seq<Event> {
    Installing(w, o, e, end)
    + (if BeforePruning(end) then [] else
         (if o.deleting then Unhooking(o, e, Present(w, o, e)) else [])
         + Cleaning(cfg, o, e, Present(w, o, e), end)
         + Applying(o, e, Present(w, o, e), end))
    + Closing(o, e, end)
  }

  // ---------------------------------------------------------------- stage by stage

  lemma PatchCloses(cfg: Config, w: World, o: Object, e: Env, end: Ending, c: Ctx)
    requires Patches(end) && Told(cfg, w, o, e, end, WriteStatus(c, e))
    ensures WriteStatus(c, e).log == c.log + Closing(o, e, end)
  {
    assert c.world.stored.Some? <==> WriteStatus(c, e).world.stored.Some?;
    assert c.log + [] == c.log;
  }

  lemma PreparationLogs(cfg: Config, w: World, o: Object, e: Env)
    requires w.stored == Some(o)
    ensures var p, end := Prepare(Ctx(Registered(o), w, []), e), EndOfPreparation(cfg, w, o, e);
            && (p.Stop? ==> p.ctx.log == Installing(w, o, e, end))
            && (p.Go? ==> p.ctx.log == Installing(w, o, e, ReadingBackFailed))
  {
    assert forall x: Event :: [] + [x] == [x];
  }

  lemma UnhookingLogs(c: Ctx, o: Object, e: Env)
    requires c.world.stored == Some(o) && c.mem.resource == o.resource
    ensures PreDelete(c, e).ctx.log == c.log + Unhooking(o, e, c.world.cluster.Keys)
  {
    assert c.log + [] == c.log;
    if o.resource.Some? {
      var d := CustomResourceDeleted(o.resource.value, NotFound);
      assert c.log + [d] + [CustomResourceFinalizerDropped] == c.log + [d, CustomResourceFinalizerDropped];
    }
  }

  lemma AnswersAreOutcomes(cluster: Cluster, keys: set<ObjectKey>, faults: set<ObjectKey>)
    ensures Outcomes(cluster, keys, faults) == Answers(keys, cluster.Keys, faults)
  {
  }

  lemma CleanupLogs(c: Ctx, e: Env, keys: set<ObjectKey>)
    ensures Cleanup(c, e, keys).ctx.log == c.log + [Cleaned(Answers(keys, c.world.cluster.Keys, e.deleteFaults), c.mem.deleting)]
  {
    AnswersAreOutcomes(c.world.cluster, keys, e.deleteFaults);
  }

  lemma RemovalLogs(c: Ctx, e: Env)
    ensures RemovePrerequisites(c, e).ctx.log
            == c.log + (if e.spec == Some(Helm) && e.chart.Chart?
                        then [PrerequisitesCleaned(Answers(e.chart.crds, c.world.cluster.Keys, e.deleteFaults))] else [])
  {
    assert c.log + [] == c.log;
    if e.chart.Chart? {
      AnswersAreOutcomes(c.world.cluster, e.chart.crds, e.deleteFaults);
    }
  }

  lemma HookLogs(c: Ctx, o: Object, e: Env, keys: set<ObjectKey>)
    requires c.world.stored == Some(o) && c.mem == o.(status := c.mem.status) && c.world.cluster.Keys == keys
    ensures PostRun(c, e).ctx.log
            == c.log + (if o.resource.Some? && e.customResource then [CustomResourceCreated(ResourceOf(o) - keys)] else [])
               + (if L.HookPasses(o, e) && o.resource.Some? && OfCustomResource !in o.finalizers
                  then [CustomResourceFinalizerAdded] else [])
  {
    assert c.log + [] + [] == c.log;
  }

  /** The events of a sync after the apply. */
  function Concluding(o: Object, e: Env, keys: set<ObjectKey>, end: Ending): seq<Event> {
    (if o.resource.Some? && e.customResource then [CustomResourceCreated(ResourceOf(o) - keys)] else [])
    + (if Checks(end) && o.resource.Some? && OfCustomResource !in o.finalizers then [CustomResourceFinalizerAdded] else [])
    + (if Checks(end) then [ReadyChecked(e.check)] else [])
  }

  lemma FinishLogs(c: Ctx, o: Object, e: Env, keys: set<ObjectKey>, end: Ending)
    requires c.world.stored == Some(o) && !o.deleting && c.mem == o.(status := c.mem.status) && c.world.cluster.Keys == keys
    requires if L.HookPasses(o, e) then Checks(end) else end.HookFailed?
    ensures FinishSync(c, e, Target(false, e)).ctx.log == c.log + Concluding(o, e, keys, end)
  {
    HookLogs(c, o, e, keys);
    PostRunIsTold(c, o, e);
    var x := if o.resource.Some? && e.customResource then [CustomResourceCreated(ResourceOf(o) - keys)] else [];
    var y := if Checks(end) && o.resource.Some? && OfCustomResource !in o.finalizers then [CustomResourceFinalizerAdded] else [];
    assert c.log + x + y + [ReadyChecked(e.check)] == c.log + (x + y + [ReadyChecked(e.check)]);
    assert c.log + x + y == c.log + (x + y + []);
  }

  lemma ApplyingIs(o: Object, e: Env, present: set<ObjectKey>, end: Ending)
    requires Applies(end)
    ensures var keys := Keys(Target(false, e));
            var event := Applied(Target(false, e), Landed(e, keys), keys * e.applyFaults);
            Applying(o, e, present, end)
            == [event] + if end.ApplyingFailed? || end.ListChanged? then [] else Concluding(o, e, present + keys, end)
  {
    var keys := Keys(Target(false, e));
    assert Landed(e, keys) == keys - (e.applyFaults - e.applyLanded);
    LeftOver(ResourceOf(o), present, keys);
    var event := Applied(Target(false, e), Landed(e, keys), keys * e.applyFaults);
    assert [event] + [] + [] + [] == [event];
  }

  lemma LeftOver(a: set<ObjectKey>, b: set<ObjectKey>, c: set<ObjectKey>)
    ensures a - (b + c) == a - b - c
  {
  }

  lemma SyncLogs(c: Ctx, w: World, o: Object, e: Env)
    requires Enters(c, w, o, e) && !o.deleting
    ensures SyncResources(c, e, Target(false, e)).ctx.log == c.log + Applying(o, e, Present(w, o, e), EndOfSync(o, e))
  {
    var target, end := Target(false, e), EndOfSync(o, e);
    var keys := Keys(target);
    var event := Applied(target, Landed(e, keys), keys * e.applyFaults);
    ApplyingIs(o, e, Present(w, o, e), end);
    if end.ApplyingFailed? || end.ListChanged? {
      assert [event] + [] == [event];
    } else {
      var applied := c.SetCluster(AfterCreates(c.world.cluster, Landed(e, keys))).Log(event);
      AppliedKeys(c, w, o, e, applied.world.cluster);
      FinishLogs(applied, o, e, Present(w, o, e) + keys, end);
      Appended(c.log, event, Concluding(o, e, Present(w, o, e) + keys, end));
    }
  }

  lemma AppliedKeys(c: Ctx, w: World, o: Object, e: Env, cluster: Cluster)
    requires Enters(c, w, o, e) && Keys(Target(false, e)) * e.applyFaults == {}
    requires cluster == AfterCreates(c.world.cluster, Landed(e, Keys(Target(false, e))))
    ensures cluster.Keys == Present(w, o, e) + Keys(Target(false, e))
  {
    EquippedKeys(w, o, e);
    assert Landed(e, Keys(Target(false, e))) == Keys(Target(false, e));
  }

  /** What a round that gets to pruning adds to its journal, up to its last event. */
  function Body(cfg: Config, o: Object, e: Env, present: set<ObjectKey>, end: Ending): seq<Event> {
    (if o.deleting then Unhooking(o, e, present) else []) + Cleaning(cfg, o, e, present, end) + Applying(o, e, present, end)
  }

  lemma ConclusionCloses(cfg: Config, w: World, o: Object, e: Env, end: Ending, q: Stage)
    requires Applies(end) && Told(cfg, w, o, e, end, Conclude(q, e))
    ensures Conclude(q, e).log == q.ctx.log + Closing(o, e, end)
  {
    match q
    case Stop(c) => PatchCloses(cfg, w, o, e, end, c);
    case Go(c) => assert c.log + [] == c.log;
  }

  lemma StopCloses(cfg: Config, w: World, o: Object, e: Env, end: Ending, p: Pruned, target: seq<Resource>)
    requires !p.Clean? && Told(cfg, w, o, e, end, AfterPrune(p, e, target))
    requires if p.Broken? then Patches(end) else end.PruningPending? || end.PrerequisitesPending?
    ensures AfterPrune(p, e, target).log == p.ctx.log + Closing(o, e, end)
  {
    match p
    case Broken(c) => PatchCloses(cfg, w, o, e, end, c);
    case Waiting(c) => assert c.log + [] == c.log;
  }

  lemma BodyOfSync(cfg: Config, o: Object, e: Env, present: set<ObjectKey>, end: Ending)
    requires !o.deleting && (end.PruningFailed? || end.PruningPending? || Applies(end))
    ensures Body(cfg, o, e, present, end)
            == [Cleaned(Answers(Excess(cfg, o, e), present, e.deleteFaults), false)] + Applying(o, e, present, end)
  {
  }

  lemma ConcludingLogs(cfg: Config, c: Ctx, w: World, o: Object, e: Env)
    requires Enters(c, w, o, e) && !o.deleting
    ensures Conclude(SyncResources(c, e, Target(false, e)), e).log
            == c.log + Applying(o, e, Present(w, o, e), EndOfSync(o, e)) + Closing(o, e, EndOfSync(o, e))
  {
    SyncLogs(c, w, o, e);
    SyncIsTold(cfg, c, w, o, e);
    ConclusionCloses(cfg, w, o, e, EndOfSync(o, e), SyncResources(c, e, Target(false, e)));
  }

  lemma SyncRoundLogs(cfg: Config, c: Ctx, w: World, o: Object, e: Env)
    requires Enters(c, w, o, e) && !o.deleting
    ensures var end := EndOfPruning(cfg, o, e, Present(w, o, e));
            AfterPrune(PruneDiff(cfg, c, e, Excess(cfg, o, e)), e, Target(false, e)).log
            == c.log + Body(cfg, o, e, Present(w, o, e), end) + Closing(o, e, end)
  {
    var keys := Excess(cfg, o, e);
    var p, cleaned := Cleanup(c, e, keys), Cleaned(Answers(keys, Present(w, o, e), e.deleteFaults), false);
    EquippedKeys(w, o, e);
    CleanupLogs(c, e, keys);
    CleanupIsTold(c, e, keys);
    assert PruneDiff(cfg, c, e, keys) == p;
    if p.Clean? {
      var end := EndOfSync(o, e);
      BodyOfSync(cfg, o, e, Present(w, o, e), end);
      ConcludingLogs(cfg, p.ctx, w, o, e);
      Appended(c.log, cleaned, Applying(o, e, Present(w, o, e), end));
    } else {
      var end := if p.Broken? then PruningFailed else PruningPending;
      StoppedLogs(cfg, c, w, o, e, end, p);
    }
  }

  lemma StoppedLogs(cfg: Config, c: Ctx, w: World, o: Object, e: Env, end: Ending, p: Pruned)
    requires Enters(c, w, o, e) && !o.deleting
    requires (p.Broken? && end.PruningFailed?) || (p.Waiting? && end.PruningPending?)
    requires p.ctx.world == World(Some(o), ClusterOf(c.world.cluster, {}, Excess(cfg, o, e) - e.deleteFaults))
    requires p.ctx.mem == if p.Broken? then c.SetState(StateError).mem else c.mem
    requires p.ctx.log == c.log + [Cleaned(Answers(Excess(cfg, o, e), Present(w, o, e), e.deleteFaults), false)]
    ensures AfterPrune(p, e, Target(false, e)).log == c.log + Body(cfg, o, e, Present(w, o, e), end) + Closing(o, e, end)
  {
    BodyOfSync(cfg, o, e, Present(w, o, e), end);
    ExcessStops(cfg, c, w, o, e, end, p);
    StopCloses(cfg, w, o, e, end, p, Target(false, e));
    Appended(c.log, Cleaned(Answers(Excess(cfg, o, e), Present(w, o, e), e.deleteFaults), false), []);
  }

  lemma Appended(log: seq<Event>, x: Event, rest: seq<Event>)
    ensures log + [x] + rest == log + ([x] + rest)
    ensures rest == [] ==> log + [x] == log + ([x] + rest)
  {
  }

  // ---------------------------------------------------------------- a deletion

  /** What a deletion adds after its hook. */
  function Removing(cfg: Config, o: Object, e: Env, present: set<ObjectKey>, end: Ending): seq<Event> {
    var cleaned := Cleaned(Answers(Keys(o.status.synced), present, e.deleteFaults), true);
    if end.PruningFailed? || end.PruningPending? || !RemovesDefinitions(cfg, e) || !e.chart.Chart? then [cleaned]
    else [cleaned, PrerequisitesCleaned(Answers(e.chart.crds, present, e.deleteFaults))]
  }

  predicate EndsDeletion(end: Ending) {
    || end.PruningFailed? || end.PruningPending? || end.PrerequisitesFailed? || end.PrerequisitesPending?
    || end.Releasing? || end.OthersRemain?
  }

  lemma BodyOfDeletion(cfg: Config, o: Object, e: Env, present: set<ObjectKey>, end: Ending)
    requires o.deleting
    ensures end.ResourceRemains? ==> Body(cfg, o, e, present, end) == Unhooking(o, e, present)
    ensures EndsDeletion(end) ==> Body(cfg, o, e, present, end) == Unhooking(o, e, present) + Removing(cfg, o, e, present, end)
  {
    ExcessOfDeletion(cfg, o, e);
  }

  lemma FinishCloses(cfg: Config, w: World, o: Object, e: Env, end: Ending, c: Ctx)
    requires end == (if Own in o.finalizers then Releasing else OthersRemain) && c.mem.finalizers == o.finalizers
    requires Told(cfg, w, o, e, end, FinishDeletion(c, e)) && Handed(c.world.stored, o) && c.mem.version == o.version
    ensures FinishDeletion(c, e).log == c.log + Closing(o, e, end)
  {
    if end.OthersRemain? {
      PatchCloses(cfg, w, o, e, end, c.SetState(StateDeleting));
    } else {
      assert Own in Kept(o);
      assert c.log + [] == c.log;
    }
  }

  function RemovingDefinitions(cfg: Config, e: Env, present: set<ObjectKey>): seq<Event> {
    if !RemovesDefinitions(cfg, e) || !e.chart.Chart? then []
    else [PrerequisitesCleaned(Answers(e.chart.crds, present, e.deleteFaults))]
  }

  lemma CleanedLogs(cfg: Config, c: Ctx, w: World, o: Object, e: Env, cleaned: Ctx)
    requires Enters(c, w, o, e) && o.deleting && o.status.state == StateDeleting
    requires cleaned.mem == c.mem && cleaned.world.cluster == c.world.cluster && Handed(cleaned.world.stored, o)
    requires ResourceGone(o, e, Present(w, o, e))
    requires Keys(o.status.synced) * e.deleteFaults == {} && Keys(o.status.synced) * Present(w, o, e) == {}
    ensures var p := if cfg.deletePrerequisites then RemovePrerequisites(cleaned, e) else Clean(cleaned);
            var end := EndOfDeletion(cfg, o, e, Present(w, o, e));
            && !end.ResourceRemains? && !end.PruningFailed? && !end.PruningPending?
            && AfterPrune(p, e, []).log
               == cleaned.log + RemovingDefinitions(cfg, e, Present(w, o, e)) + Closing(o, e, end)
  {
    var end := EndOfDeletion(cfg, o, e, Present(w, o, e));
    var p := if cfg.deletePrerequisites then RemovePrerequisites(cleaned, e) else Clean(cleaned);
    EquippedKeys(w, o, e);
    RemovalIsTold(cleaned, e);
    RemovalLogs(cleaned, e);
    CleanedIsTold(cfg, c, w, o, e, cleaned);
    assert p.ctx.log == cleaned.log + RemovingDefinitions(cfg, e, Present(w, o, e)) by {
      assert cleaned.log + [] == cleaned.log;
    }
    if p.Clean? {
      FinishCloses(cfg, w, o, e, end, p.ctx);
    } else {
      StopCloses(cfg, w, o, e, end, p, []);
    }
  }

  lemma UnblockedLogs(cfg: Config, c: Ctx, w: World, o: Object, e: Env, c': Ctx)
    requires Enters(c, w, o, e) && o.deleting && o.status.state == StateDeleting && ResourceGone(o, e, Present(w, o, e))
    requires c'.mem == c.mem && c'.world.cluster == c.world.cluster && Handed(c'.world.stored, o)
    ensures var end := EndOfDeletion(cfg, o, e, Present(w, o, e));
            && EndsDeletion(end)
            && AfterPrune(RestOfPruning(cfg, c', e, Keys(o.status.synced)), e, []).log
               == c'.log + Removing(cfg, o, e, Present(w, o, e), end) + Closing(o, e, end)
  {
    var keys := Keys(o.status.synced);
    var p, cleaned := Cleanup(c', e, keys), Cleaned(Answers(keys, Present(w, o, e), e.deleteFaults), true);
    EquippedKeys(w, o, e);
    CleanupIsTold(c', e, keys);
    CleanupLogs(c', e, keys);
    if p.Clean? {
      CleanedLogs(cfg, c, w, o, e, p.ctx);
      var more := RemovingDefinitions(cfg, e, Present(w, o, e));
      Appended(c'.log, cleaned, more);
      assert [cleaned] + more == Removing(cfg, o, e, Present(w, o, e), EndOfDeletion(cfg, o, e, Present(w, o, e)));
    } else {
      UnblockedIsTold(cfg, c, w, o, e, c');
      StopCloses(cfg, w, o, e, if p.Broken? then PruningFailed else PruningPending, p, []);
    }
  }

  lemma BlockedLogs(cfg: Config, c: Ctx, w: World, o: Object, e: Env, c': Ctx)
    requires Enters(c, w, o, e) && o.deleting && c'.mem == c.mem
    requires c'.world == World(Some(o), ClusterOf(c.world.cluster, {}, if e.customResource then ResourceOf(o) else {}))
    ensures WriteStatus(c', e).log == c'.log + Closing(o, e, ResourceRemains)
  {
    BlockedIsTold(cfg, c, w, o, e, c');
    PatchCloses(cfg, w, o, e, ResourceRemains, c');
  }

  lemma Regrouped(x: seq<Event>, y: seq<Event>, z: seq<Event>)
    ensures x + y + z == x + (y + z)
  {
  }

  lemma DeletionRoundLogs(cfg: Config, c: Ctx, w: World, o: Object, e: Env)
    requires Enters(c, w, o, e) && o.deleting && o.status.state == StateDeleting
    ensures var end := EndOfDeletion(cfg, o, e, Present(w, o, e));
            AfterPrune(PruneDiff(cfg, c, e, Keys(o.status.synced)), e, []).log
            == c.log + Body(cfg, o, e, Present(w, o, e), end) + Closing(o, e, end)
  {
    var end := EndOfDeletion(cfg, o, e, Present(w, o, e));
    EquippedKeys(w, o, e);
    PreDeleteIsTold(c, o, e);
    UnhookingLogs(c, o, e);
    BodyOfDeletion(cfg, o, e, Present(w, o, e), end);
    match PreDelete(c, e)
    case Stop(c') => BlockedLogs(cfg, c, w, o, e, c');
    case Go(c') =>
      UnblockedLogs(cfg, c, w, o, e, c');
      Regrouped(c.log, Unhooking(o, e, Present(w, o, e)), Removing(cfg, o, e, Present(w, o, e), end));
  }

  // ---------------------------------------------------------------- the whole round

  lemma JournalOfPruning(cfg: Config, w: World, o: Object, e: Env, end: Ending)
    requires !BeforePruning(end)
    ensures Journal(cfg, w, o, e, end)
            == Installing(w, o, e, ReadingBackFailed) + Body(cfg, o, e, Present(w, o, e), end) + Closing(o, e, end)
  {
  }

  lemma JournalBeforePruning(cfg: Config, w: World, o: Object, e: Env, end: Ending)
    requires BeforePruning(end)
    ensures Journal(cfg, w, o, e, end) == Installing(w, o, e, end) + Closing(o, e, end)
  {
  }

  lemma PreparedLogs(cfg: Config, w: World, o: Object, e: Env)
    requires w.stored == Some(o) && (o.deleting ==> o.status.state == StateDeleting)
    ensures var end := EndOfPreparation(cfg, w, o, e);
            Onwards(cfg, Prepare(Ctx(Registered(o), w, []), e), e).log == Journal(cfg, w, o, e, end)
  {
    PreparationIsTold(cfg, w, o, e);
    PreparationLogs(cfg, w, o, e);
    match Prepare(Ctx(Registered(o), w, []), e)
    case Stop(c) =>
      var end := EndOfPreparation(cfg, w, o, e);
      JournalBeforePruning(cfg, w, o, e, end);
      PatchCloses(cfg, w, o, e, end, c);
    case Go(c) => RenderedLogs(cfg, c, w, o, e);
  }

  lemma RenderedLogs(cfg: Config, c: Ctx, w: World, o: Object, e: Env)
    requires w.stored == Some(o) && (o.deleting ==> o.status.state == StateDeleting) && Resolved(c, w, o, e)
    requires c.log == Installing(w, o, e, ReadingBackFailed)
    ensures var end := if !o.deleting && e.rendering.RenderFailed? then RenderingFailed
                       else if !e.current then ReadingBackFailed
                       else EndOfPruning(cfg, o, e, Present(w, o, e));
            AfterPrepare(cfg, c, e).log == Journal(cfg, w, o, e, end)
  {
    RenderingIsTold(cfg, c, w, o, e);
    match RenderResources(c, e)
    case Stop(c') =>
      var end := if !o.deleting && e.rendering.RenderFailed? then RenderingFailed else ReadingBackFailed;
      JournalBeforePruning(cfg, w, o, e, end);
      PatchCloses(cfg, w, o, e, end, c');
    case Go(c') =>
      var end := EndOfPruning(cfg, o, e, Present(w, o, e));
      PastPruning(cfg, o, e, Present(w, o, e));
      JournalOfPruning(cfg, w, o, e, end);
      if o.deleting {
        ExcessOfDeletion(cfg, o, e);
        DeletionRoundLogs(cfg, c', w, o, e);
      } else {
        SyncRoundLogs(cfg, c', w, o, e);
      }
  }

  lemma PastPruning(cfg: Config, o: Object, e: Env, present: set<ObjectKey>)
    ensures !BeforePruning(EndOfPruning(cfg, o, e, present))
  {
  }

  /** Every round logs exactly the events that the answers determine, in this order. */
  lemma RoundIsLogged(cfg: Config, w: World, e: Env)
    requires w.stored.Some?
    ensures Reconcile(cfg, w, e).log == Journal(cfg, w, w.stored.value, e, EndingOf(cfg, w, e))
  {
    var o := w.stored.value;
    var c := Ctx(o, w, []);
    if !e.get || e.skip {
    } else if o.deleting && o.status.state != StateDeleting {
      NoticedIsTold(cfg, w, o, e, c);
      PatchCloses(cfg, w, o, e, DeletionNoticed, Initialize(c).ctx);
    } else if o.status.state == StateUnset {
      StartedIsTold(cfg, w, o, e, c);
      PatchCloses(cfg, w, o, e, Started, Initialize(c).ctx);
    } else {
      assert Initialize(c) == Go(Ctx(Registered(o), w, []));
      if !o.deleting && Own !in o.finalizers {
      } else {
        PreparedLogs(cfg, w, o, e);
      }
    }
  }
}

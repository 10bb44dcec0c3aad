/** The order of everything a run does: which events may come after which history. */
module TraceOrder {
  import opened Identity
  import opened Model
  import opened Protocol
  import opened Frames
  import opened Runs

  /** What a history is read against: the matching rule, and the custom resource that the spec names. */
  datatype Setting = Setting(matcher: Matcher, resource: Option<ObjectKey>)

  /** The state that the last status patch persisted. */
  function LastWritten(log: seq<Event>): State {
    if log == [] then
      StateUnset
    else
      var e := log[|log| - 1];
      if e.StatusWritten? then e.state else LastWritten(log[..|log| - 1])
  }

  /** The tracked list that the last status patch persisted. */
  function LastTracked(log: seq<Event>): seq<Resource> {
    if log == [] then
      []
    else
      var e := log[|log| - 1];
      if e.StatusWritten? then e.synced else LastTracked(log[..|log| - 1])
  }

  /** The reconciler's finalizer was added, and not dropped since. */
  predicate OwnOn(log: seq<Event>) {
    log != [] && match log[|log| - 1] {
      case OwnFinalizerAdded => true
      case OwnFinalizerDropped => false
      case _ => OwnOn(log[..|log| - 1])
    }
  }

  ghost predicate Ends(log: seq<Event>, e: Event) {
    |log| > 0 && log[|log| - 1] == e
  }

  ghost predicate AllNotFound(outcomes: map<ObjectKey, DeleteOutcome>) {
    forall k | k in outcomes :: outcomes[k] == NotFound
  }

  /** The last thing done was a cleanup of exactly `keys`, each of which was reported gone. */
  ghost predicate EndsClean(log: seq<Event>, removal: bool, keys: set<ObjectKey>) {
    |log| > 0 && match log[|log| - 1] {
      case Cleaned(outcomes, r) => r == removal && outcomes.Keys == keys && AllNotFound(outcomes)
      case _ => false
    }
  }

  /** The last things done were a cleanup of everything tracked, and possibly one of the prerequisites. */
  ghost predicate EndsRemoved(log: seq<Event>, tracked: set<ObjectKey>) {
    || EndsClean(log, true, tracked)
    || (|log| > 1 && EndsClean(log[..|log| - 1], true, tracked) && match log[|log| - 1] {
          case PrerequisitesCleaned(outcomes) => AllNotFound(outcomes)
          case _ => false
        })
  }

  /** The custom resource, if there is one, was just reported gone. */
  ghost predicate EndsWithoutResource(resource: Option<ObjectKey>, log: seq<Event>) {
    resource.Some? ==>
      || Ends(log, CustomResourceDeleted(resource.value, NotFound))
      || Ends(log, CustomResourceFinalizerDropped)
  }

  /** The last thing done was to apply the whole target. */
  ghost predicate JustApplied(log: seq<Event>, target: seq<Resource>) {
    |log| > 0 && match log[|log| - 1] {
      case Applied(t, landed, failed) => t == target && failed == {} && landed == Keys(target)
      case _ => false
    }
  }

  /** The whole target was applied last, before at most the creation of the custom resource. */
  ghost predicate EndsApplied(log: seq<Event>, target: seq<Resource>) {
    || JustApplied(log, target)
    || (|log| > 0 && log[|log| - 1].CustomResourceCreated? && JustApplied(log[..|log| - 1], target))
  }

  /** The whole target was just applied, and the custom resource seen to if there is one. */
  ghost predicate EndsSynced(resource: Option<ObjectKey>, log: seq<Event>) {
    |log| > 0 && match log[|log| - 1] {
      case Applied(_, _, failed) => resource.None? && failed == {}
      case CustomResourceCreated(_) => resource.Some?
      case CustomResourceFinalizerAdded => resource.Some?
      case _ => false
    }
  }

  /** Which event may follow which history. */
  ghost predicate Rule(k: Setting, prior: seq<Event>, e: Event) {
    match e
    case CustomResourceDeleted(key, _) =>
      LastWritten(prior) == StateDeleting && k.resource == Some(key)
    case CustomResourceFinalizerDropped =>
      LastWritten(prior) == StateDeleting && k.resource.Some?
      && Ends(prior, CustomResourceDeleted(k.resource.value, NotFound))
    case Cleaned(outcomes, removal) =>
      && outcomes.Keys <= Keys(LastTracked(prior))
      && (removal ==>
            && LastWritten(prior) == StateDeleting && EndsWithoutResource(k.resource, prior)
            && outcomes.Keys == Keys(LastTracked(prior)))
    case PrerequisitesCleaned(_) =>
      LastWritten(prior) == StateDeleting && EndsClean(prior, true, Keys(LastTracked(prior)))
    case OwnFinalizerDropped =>
      OwnOn(prior) && LastWritten(prior) == StateDeleting && EndsRemoved(prior, Keys(LastTracked(prior)))
    case Applied(target, landed, failed) =>
      && OwnOn(prior) && landed + failed == Keys(target)
      && EndsClean(prior, false, Dropped(k.matcher, LastTracked(prior), target))
    case CustomResourceCreated(made) =>
      && |prior| > 0 && prior[|prior| - 1].Applied? && prior[|prior| - 1].failed == {}
      && k.resource.Some? && made <= {k.resource.value}
    case CustomResourceFinalizerAdded =>
      |prior| > 0 && prior[|prior| - 1].CustomResourceCreated?
    case ReadyChecked(_) =>
      EndsSynced(k.resource, prior)
    case StatusWritten(state, synced) =>
      && (state == StateReady ==> LastWritten(prior) == StateReady || Ends(prior, ReadyChecked(Passed)))
      && (synced == LastTracked(prior) || EndsApplied(prior, synced))
    case OwnFinalizerAdded =>
      !OwnOn(prior) && LastWritten(prior) != StateUnset
    case PrerequisitesInstalled(_) =>
      OwnOn(prior) || LastWritten(prior) == StateDeleting
  }

  /** Every event of the log obeys the rule. */
  ghost predicate Obeys(k: Setting, log: seq<Event>) {
    forall i | 0 <= i < |log| :: Rule(k, log[..i], log[i])
  }

  lemma ExtendLog(k: Setting, before: seq<Event>, e: Event)
    requires Obeys(k, before) && Rule(k, before, e)
    ensures Obeys(k, before + [e])
  {
    var after := before + [e];
    forall i | 0 <= i < |after| ensures Rule(k, after[..i], after[i]) {
      assert after[..i] == before[..i];
      if i == |before| {
        assert before[..i] == before;
      }
    }
  }

  /** One more event: what the history then ends with. */
  ghost predicate Extends(before: seq<Event>, e: Event, after: seq<Event>) {
    && |after| == |before| + 1 && after[|before|] == e && after[..|before|] == before
    && LastWritten(after) == (if e.StatusWritten? then e.state else LastWritten(before))
    && LastTracked(after) == (if e.StatusWritten? then e.synced else LastTracked(before))
    && OwnOn(after) == (if e.OwnFinalizerDropped? then false else e.OwnFinalizerAdded? || OwnOn(before))
  }

  lemma Extend(k: Setting, prior: seq<Event>, log: seq<Event>, e: Event)
    requires Obeys(k, prior + log) && Rule(k, prior + log, e)
    ensures Obeys(k, prior + (log + [e])) && Extends(prior + log, e, prior + (log + [e]))
  {
    assert prior + (log + [e]) == prior + log + [e];
    ExtendLog(k, prior + log, e);
  }

  // ---------------------------------------------------------------- stage by stage

  function SettingOf(m: Matcher, c: Ctx): Setting {
    Setting(m, c.mem.resource)
  }

  /** A point inside a round: the history obeys the rules and the persisted status is still that of its start. */
  ghost predicate Fine(m: Matcher, prior: seq<Event>, c: Ctx, state: State, tracked: seq<Resource>) {
    && Obeys(SettingOf(m, c), prior + c.log) && LastWritten(prior + c.log) == state && LastTracked(prior + c.log) == tracked
    && (Own in c.mem.finalizers <==> OwnOn(prior + c.log))
  }

  /** Stages log at most one installation up to pruning. */
  lemma PreparationLogs(c: Ctx, e: Env)
    ensures var c' := Prepare(c, e).ctx;
            && c'.mem.resource == c.mem.resource && c'.mem.finalizers == c.mem.finalizers
            && (c'.log == c.log ||
                (e.chart.Chart? && c'.log == c.log + [PrerequisitesInstalled(e.chart.crds - e.crdFaults - c.world.cluster.Keys)]))
  {
  }

  lemma PrepareObeys(m: Matcher, prior: seq<Event>, c: Ctx, e: Env, state: State, tracked: seq<Resource>)
    requires Fine(m, prior, c, state, tracked) && (Own in c.mem.finalizers || state == StateDeleting)
    ensures Fine(m, prior, Prepare(c, e).ctx, state, tracked)
  {
    PreparationLogs(c, e);
    if e.chart.Chart? {
      Extend(SettingOf(m, c), prior, c.log, PrerequisitesInstalled(e.chart.crds - e.crdFaults - c.world.cluster.Keys));
    }
  }

  lemma PreDeleteObeys(m: Matcher, prior: seq<Event>, c: Ctx, e: Env, tracked: seq<Resource>)
    requires Fine(m, prior, c, StateDeleting, tracked)
    ensures var p := PreDelete(c, e);
            Fine(m, prior, p.ctx, StateDeleting, tracked)
            && (p.Go? ==> EndsWithoutResource(c.mem.resource, prior + p.ctx.log))
  {
    if c.mem.resource.Some? {
      var k := c.mem.resource.value;
      var o := if !e.customResource then Refused else if k in c.world.cluster then Accepted else NotFound;
      var first := CustomResourceDeleted(k, o);
      Extend(SettingOf(m, c), prior, c.log, first);
      if o == NotFound {
        Extend(SettingOf(m, c), prior, c.log + [first], CustomResourceFinalizerDropped);
      }
    }
  }

  lemma PassedMeansNotFound(outcomes: map<ObjectKey, DeleteOutcome>)
    requires CleanupVerdict(outcomes) == Passed
    ensures AllNotFound(outcomes)
  {
    forall k | k in outcomes ensures outcomes[k] == NotFound {
      assert outcomes[k] in outcomes.Values;
    }
  }

  lemma CleanupObeys(m: Matcher, prior: seq<Event>, c: Ctx, e: Env, keys: set<ObjectKey>, state: State,
                     tracked: seq<Resource>)
    requires Fine(m, prior, c, state, tracked) && keys <= Keys(tracked)
    requires c.mem.deleting ==>
               state == StateDeleting && EndsWithoutResource(c.mem.resource, prior + c.log) && keys == Keys(tracked)
    ensures var p := Cleanup(c, e, keys);
            && Fine(m, prior, p.ctx, state, tracked)
            && (p.Clean? ==> EndsClean(prior + p.ctx.log, c.mem.deleting, keys))
  {
    var outcomes := Outcomes(c.world.cluster, keys, e.deleteFaults);
    assert outcomes.Keys == keys;
    Extend(SettingOf(m, c), prior, c.log, Cleaned(outcomes, c.mem.deleting));
    if CleanupVerdict(outcomes) == Passed {
      PassedMeansNotFound(outcomes);
    }
  }

  lemma RemovalObeys(m: Matcher, prior: seq<Event>, c: Ctx, e: Env, tracked: seq<Resource>)
    requires Fine(m, prior, c, StateDeleting, tracked) && EndsClean(prior + c.log, true, Keys(tracked))
    ensures var p := RemovePrerequisites(c, e);
            && Fine(m, prior, p.ctx, StateDeleting, tracked)
            && (p.Clean? ==> EndsRemoved(prior + p.ctx.log, Keys(tracked)))
  {
    if e.chart.Chart? {
      var outcomes := Outcomes(c.world.cluster, e.chart.crds, e.deleteFaults);
      Extend(SettingOf(m, c), prior, c.log, PrerequisitesCleaned(outcomes));
      if CleanupVerdict(outcomes) == Passed {
        PassedMeansNotFound(outcomes);
      }
    }
  }

  lemma DeleteObeys(m: Matcher, prior: seq<Event>, c: Ctx, e: Env, keys: set<ObjectKey>, state: State,
                    tracked: seq<Resource>)
    requires Fine(m, prior, c, state, tracked) && keys <= Keys(tracked)
    requires c.mem.deleting ==> state == StateDeleting && keys == Keys(tracked)
    ensures var p := DeleteResources(c, e, keys);
            && Fine(m, prior, p.ctx, state, tracked)
            && (p.Clean? ==> EndsClean(prior + p.ctx.log, c.mem.deleting, keys))
  {
    if !c.mem.deleting {
      CleanupObeys(m, prior, c, e, keys, state, tracked);
    } else {
      PreDeleteObeys(m, prior, c, e, tracked);
      match PreDelete(c, e)
      case Stop(c') =>
      case Go(c') => CleanupObeys(m, prior, c', e, keys, state, tracked);
    }
  }

  lemma PruneObeys(prior: seq<Event>, cfg: Config, c: Ctx, e: Env, keys: set<ObjectKey>, state: State,
                   tracked: seq<Resource>)
    requires Fine(cfg.matcher, prior, c, state, tracked) && keys <= Keys(tracked)
    requires c.mem.deleting ==> state == StateDeleting && keys == Keys(tracked)
    ensures var p := PruneDiff(cfg, c, e, keys);
            && Fine(cfg.matcher, prior, p.ctx, state, tracked)
            && (p.Clean? && !c.mem.deleting ==> EndsClean(prior + p.ctx.log, false, keys))
            && (p.Clean? && c.mem.deleting ==> EndsRemoved(prior + p.ctx.log, Keys(tracked)))
  {
    DeleteObeys(cfg.matcher, prior, c, e, keys, state, tracked);
    var q := DeleteResources(c, e, keys);
    if q.Clean? && c.mem.deleting {
      RemovalObeys(cfg.matcher, prior, q.ctx, e, tracked);
    }
  }

  /** What the hook leaves in the log. */
  ghost predicate HookLogs(c: Ctx, p: Stage, created: Event) {
    && p.ctx.mem == c.mem && created.CustomResourceCreated?
    && match c.mem.resource {
         case None => p == Go(c)
         case Some(k) =>
           && created.made <= {k}
           && (|| (p.Stop? && p.ctx.log == c.log)
               || p.ctx.log == c.log + [created]
               || (p.Go? && p.ctx.log == c.log + [created] + [CustomResourceFinalizerAdded]))
       }
  }

  lemma HookObeys(m: Matcher, prior: seq<Event>, c: Ctx, p: Stage, created: Event, state: State, tracked: seq<Resource>,
                  target: seq<Resource>)
    requires Fine(m, prior, c, state, tracked) && JustApplied(prior + c.log, target) && HookLogs(c, p, created)
    ensures Fine(m, prior, p.ctx, state, tracked)
    ensures p.Go? ==> EndsSynced(c.mem.resource, prior + p.ctx.log)
    ensures p.Stop? ==> EndsApplied(prior + p.ctx.log, target)
  {
    if c.mem.resource.Some? {
      Extend(SettingOf(m, c), prior, c.log, created);
      Extend(SettingOf(m, c), prior, c.log + [created], CustomResourceFinalizerAdded);
    }
  }

  lemma PostRunObeys(m: Matcher, prior: seq<Event>, c: Ctx, e: Env, state: State, tracked: seq<Resource>,
                     target: seq<Resource>)
    requires Fine(m, prior, c, state, tracked) && JustApplied(prior + c.log, target)
    ensures var p := PostRun(c, e);
            && Fine(m, prior, p.ctx, state, tracked)
            && (p.Go? ==> EndsSynced(c.mem.resource, prior + p.ctx.log))
            && (p.Stop? ==> EndsApplied(prior + p.ctx.log, target))
  {
    var made := if c.mem.resource.Some? then {c.mem.resource.value} - c.world.cluster.Keys else {};
    HookObeys(m, prior, c, PostRun(c, e), CustomResourceCreated(made), state, tracked, target);
  }

  /** A status that may be written: Ready only after a passed check, and a new list only after it was applied. */
  ghost predicate Writable(log: seq<Event>, status: Status, state: State, tracked: seq<Resource>) {
    && (status.state == StateReady && state != StateReady ==> Ends(log, ReadyChecked(Passed)))
    && (status.synced == tracked || EndsApplied(log, status.synced))
  }

  lemma CheckObeys(m: Matcher, prior: seq<Event>, c: Ctx, e: Env, tracked: seq<Resource>)
    requires Fine(m, prior, c, c.mem.status.state, tracked) && EndsSynced(c.mem.resource, prior + c.log)
    requires c.mem.status.synced == tracked
    ensures var p := CheckReadiness(c, e);
            && Fine(m, prior, p.ctx, c.mem.status.state, tracked)
            && Writable(prior + p.ctx.log, p.ctx.mem.status, c.mem.status.state, tracked)
  {
    CheckFrame(c, e);
    Extend(SettingOf(m, c), prior, c.log, ReadyChecked(e.check));
  }

  lemma FinishObeys(m: Matcher, prior: seq<Event>, c: Ctx, e: Env, target: seq<Resource>, tracked: seq<Resource>)
    requires Fine(m, prior, c, c.mem.status.state, tracked) && JustApplied(prior + c.log, target)
    requires c.mem.status.synced == tracked
    ensures var p := FinishSync(c, e, target);
            && Fine(m, prior, p.ctx, c.mem.status.state, tracked)
            && Writable(prior + p.ctx.log, p.ctx.mem.status, c.mem.status.state, tracked)
  {
    PostRunObeys(m, prior, c, e, c.mem.status.state, tracked, target);
    PostRunFrame(c, e);
    match PostRun(c, e)
    case Stop(c') =>
    case Go(c') => CheckObeys(m, prior, c', e, tracked);
  }

  lemma SyncObeys(m: Matcher, prior: seq<Event>, c: Ctx, e: Env, target: seq<Resource>, tracked: seq<Resource>)
    requires Fine(m, prior, c, c.mem.status.state, tracked) && c.mem.status.synced == tracked && Own in c.mem.finalizers
    requires EndsClean(prior + c.log, false, Dropped(m, tracked, target))
    ensures var p := SyncResources(c, e, target);
            && Fine(m, prior, p.ctx, c.mem.status.state, tracked)
            && Writable(prior + p.ctx.log, p.ctx.mem.status, c.mem.status.state, tracked)
  {
    var landed, failed := Landed(e, Keys(target)), Keys(target) * e.applyFaults;
    assert landed + failed == Keys(target);
    Extend(SettingOf(m, c), prior, c.log, Applied(target, landed, failed));
    if failed == {} && DiffOf(c.mem.status.synced, target) == [] {
      var applied := c.SetCluster(AfterCreates(c.world.cluster, landed)).Log(Applied(target, landed, failed));
      FinishObeys(m, prior, applied, e, target, tracked);
    }
  }

  // ---------------------------------------------------------------- rounds and runs

  /** The persisted status is the one last written, and the whole log obeys the rules. */
  ghost predicate InOrder(k: Setting, world: World, log: seq<Event>) {
    && Obeys(k, log)
    && (world.stored.Some? ==> Persists(world.stored.value, k.resource, LastWritten(log), LastTracked(log), OwnOn(log)))
  }

  ghost predicate Persists(o: Object, resource: Option<ObjectKey>, state: State, tracked: seq<Resource>, own: bool) {
    o.status.state == state && o.status.synced == tracked && o.resource == resource && (Own in o.finalizers <==> own)
  }

  lemma WriteObeys(m: Matcher, prior: seq<Event>, c: Ctx, e: Env, state: State, tracked: seq<Resource>)
    requires Fine(m, prior, c, state, tracked)
    requires c.world.stored.Some? ==> Persists(c.world.stored.value, c.mem.resource, state, tracked, Own in c.mem.finalizers)
    requires Writable(prior + c.log, c.mem.status, state, tracked)
    ensures var r := WriteStatus(c, e); InOrder(SettingOf(m, c), r.world, prior + r.log)
  {
    Extend(SettingOf(m, c), prior, c.log, StatusWritten(c.mem.status.state, c.mem.status.synced));
  }

  lemma ConcludeObeys(m: Matcher, prior: seq<Event>, c: Ctx, e: Env, target: seq<Resource>)
    requires c.world.stored.Some? && Own in c.mem.finalizers
    requires Fine(m, prior, c, c.mem.status.state, c.mem.status.synced)
    requires EndsClean(prior + c.log, false, Dropped(m, c.mem.status.synced, target))
    requires Persists(c.world.stored.value, c.mem.resource, c.mem.status.state, c.mem.status.synced, Own in c.mem.finalizers)
    ensures var r := Conclude(SyncResources(c, e, target), e); InOrder(SettingOf(m, c), r.world, prior + r.log)
  {
    SyncObeys(m, prior, c, e, target, c.mem.status.synced);
    SyncFrame(c, e, target);
    var q := SyncResources(c, e, target);
    if q.Stop? {
      WriteObeys(m, prior, q.ctx, e, c.mem.status.state, c.mem.status.synced);
    }
  }

  lemma FinishDeletionObeys(m: Matcher, prior: seq<Event>, c: Ctx, e: Env)
    requires Fine(m, prior, c, StateDeleting, c.mem.status.synced)
    requires EndsRemoved(prior + c.log, Keys(c.mem.status.synced))
    requires c.world.stored.Some? ==>
               Persists(c.world.stored.value, c.mem.resource, StateDeleting, c.mem.status.synced, Own in c.mem.finalizers)
    ensures var r := FinishDeletion(c, e); InOrder(SettingOf(m, c), r.world, prior + r.log)
  {
    if Own in c.mem.finalizers {
      Extend(SettingOf(m, c), prior, c.log, OwnFinalizerDropped);
    } else {
      WriteObeys(m, prior, c.SetState(StateDeleting), e, StateDeleting, c.mem.status.synced);
    }
  }

  lemma PrunedObeys(prior: seq<Event>, cfg: Config, c: Ctx, e: Env, target: seq<Resource>)
    requires c.world.stored.Some?
    requires Fine(cfg.matcher, prior, c, c.mem.status.state, c.mem.status.synced)
    requires Persists(c.world.stored.value, c.mem.resource, c.mem.status.state, c.mem.status.synced, Own in c.mem.finalizers)
    requires if c.mem.deleting then c.mem.status.state == StateDeleting && target == [] else Own in c.mem.finalizers
    ensures var p := PruneDiff(cfg, c, e, Dropped(cfg.matcher, c.mem.status.synced, target));
            var r := AfterPrune(p, e, target);
            InOrder(SettingOf(cfg.matcher, c), r.world, prior + r.log)
  {
    var state, tracked := c.mem.status.state, c.mem.status.synced;
    var keys := Dropped(cfg.matcher, tracked, target);
    assert target == [] ==> keys == Keys(tracked);
    var p := PruneDiff(cfg, c, e, keys);
    PruneFrame(cfg, c, e, keys);
    PruneObeys(prior, cfg, c, e, keys, state, tracked);
    match p
    case Waiting(c') =>
    case Broken(c') => WriteObeys(cfg.matcher, prior, c', e, state, tracked);
    case Clean(c') =>
      if c'.mem.deleting {
        FinishDeletionObeys(cfg.matcher, prior, c', e);
      } else {
        ConcludeObeys(cfg.matcher, prior, c', e, target);
      }
  }

  lemma RenderObeys(prior: seq<Event>, cfg: Config, c: Ctx, e: Env)
    requires c.world.stored.Some?
    requires Fine(cfg.matcher, prior, c, c.mem.status.state, c.mem.status.synced)
    requires Persists(c.world.stored.value, c.mem.resource, c.mem.status.state, c.mem.status.synced, Own in c.mem.finalizers)
    requires if c.mem.deleting then c.mem.status.state == StateDeleting else Own in c.mem.finalizers
    ensures var r := AfterPrepare(cfg, c, e); InOrder(SettingOf(cfg.matcher, c), r.world, prior + r.log)
  {
    RenderFrame(c, e);
    match RenderResources(c, e)
    case Stop(c') => WriteObeys(cfg.matcher, prior, c', e, c.mem.status.state, c.mem.status.synced);
    case Go(c') => PrunedObeys(prior, cfg, c', e, Target(c.mem.deleting, e));
  }

  lemma RoundObeys(prior: seq<Event>, cfg: Config, w: World, e: Env, resource: Option<ObjectKey>)
    requires InOrder(Setting(cfg.matcher, resource), w, prior)
    ensures var r := Reconcile(cfg, w, e); InOrder(Setting(cfg.matcher, resource), r.world, prior + r.log)
  {
    assert prior + [] == prior;
    if w.stored.Some? && e.get && !e.skip {
      var c := Ctx(w.stored.value, w, []);
      var state, tracked, init := c.mem.status.state, c.mem.status.synced, Initialize(c);
      InitializeFrame(c);
      if init.Stop? {
        WriteObeys(cfg.matcher, prior, init.ctx, e, state, tracked);
      } else if !c.mem.deleting && Own !in c.mem.finalizers {
        Extend(SettingOf(cfg.matcher, c), prior, [], OwnFinalizerAdded);
      } else {
        var prep := Prepare(init.ctx, e);
        PrepareFrame(init.ctx, e);
        PrepareObeys(cfg.matcher, prior, init.ctx, e, state, tracked);
        if prep.Stop? {
          WriteObeys(cfg.matcher, prior, prep.ctx, e, state, tracked);
        } else {
          RenderObeys(prior, cfg, prep.ctx, e);
        }
      }
    }
  }

  /** Every event of every run obeys the rule: removal starts only once Deleting is the persisted state; exactly what the
      persisted list tracks is deleted for removal, after the custom resource was reported gone; the finalizer drops only after
      each tracked object was reported gone; a target is applied only after each tracked object that it drops was reported
      gone; nothing that is not tracked is ever deleted; nothing is applied, and outside a deletion nothing installed, before the
      reconciler's finalizer is on the object; the persisted list changes only to a target that was just applied in full; and
      Ready is first written only after a full apply, the hook and a passed check. */
  lemma {:induction false} RunsAreInOrder(cfg: Config, s: System, moves: seq<Move>)
    requires Fresh(s) && Legal(cfg, s, moves) && FixedResource(cfg, s, moves)
    ensures InOrder(Setting(cfg.matcher, s.world.stored.value.resource), Exec(cfg, s, moves).world, Exec(cfg, s, moves).log)
  {
    var resource := s.world.stored.value.resource;
    if moves != [] {
      var n := |moves| - 1;
      var before := Exec(cfg, s, moves[..n]);
      LegalPrefix(cfg, s, moves, n);
      FixedPrefix(cfg, s, moves, n);
      RunsAreInOrder(cfg, s, moves[..n]);
      assert Allowed(before, moves[n]) && KeepsResource(before, moves[n]);
      match moves[n]
      case Outside(next) =>
      case Reconciled(e) => RoundObeys(before.log, cfg, before.world, e, resource);
    }
  }
}

/** The definitions of the chart: nothing is pruned or applied before they are there and ready, and the condition says so only
    then. */
module Prerequisites {
  import opened Identity
  import opened Model
  import opened Protocol
  import opened Runs
  import opened Endings
  import opened Journals
  import opened Results

  /** The object says that the definitions are ready. */
  predicate Claims(stored: Option<Object>) {
    stored.Some? && IsTrue(stored.value.status.conditions, HelmCRDs)
  }

  /** A Helm round loads its chart, gets all definitions created and sees them pass the check; they are in the cluster after it. */
  predicate Sees(e: Env, after: World) {
    e.spec == Some(Helm) && CRDsPass(e) && e.chart.crds <= after.cluster.Keys
  }

  // ---------------------------------------------------------------- the condition is earned

  lemma PastDefinitions(cfg: Config, w: World, e: Env)
    requires w.stored.Some?
    ensures var end := EndingOf(cfg, w, e);
            !BeforeCRDs(end) && !end.CRDsFailed? && !end.CRDsPending? && Consults(w.stored.value, e) ==> CRDsPass(e)
  {
    PreparedEnding(cfg, w, e);
  }

  /** A round that finds the condition not True and leaves it True has seen the definitions. */
  lemma ClaimIsSeen(cfg: Config, w: World, e: Env)
    requires !Claims(w.stored) && Claims(Reconcile(cfg, w, e).world.stored) && w.stored.Some?
    ensures Sees(e, Reconcile(cfg, w, e).world)
  {
    var o, end := w.stored.value, EndingOf(cfg, w, e);
    RoundIsTold(cfg, w, e);
    PastDefinitions(cfg, w, e);
  }

  /** What holds in the end and did not in the beginning has begun to hold at one point, for good. */
  lemma {:induction false} LastRise(holds: seq<bool>, k: nat) returns (i: nat)
    requires k < |holds| && !holds[0] && holds[k]
    ensures i < k && !holds[i] && forall j | i < j <= k :: holds[j]
  {
    i := k - 1;
    if holds[k - 1] {
      i := LastRise(holds, k - 1);
    }
  }

  lemma MoveEarnsClaim(cfg: Config, s: System, m: Move)
    requires Allowed(s, m) && !Claims(s.world.stored) && Claims(Step(cfg, s, m).world.stored)
    ensures m.Reconciled? && Sees(m.env, Step(cfg, s, m).world)
  {
    if m.Reconciled? && s.world.stored.Some? {
      ClaimIsSeen(cfg, s.world, m.env);
    }
  }

  /** In every run, whenever the condition is True, one particular round has seen the definitions, and it is True since. */
  lemma ClaimWasSeen(cfg: Config, s: System, moves: seq<Move>, k: nat) returns (i: nat)
    requires Fresh(s) && Legal(cfg, s, moves) && k <= |moves| && Claims(At(cfg, s, moves, k).world.stored)
    ensures i < k && moves[i].Reconciled? && Sees(moves[i].env, At(cfg, s, moves, i + 1).world)
    ensures forall j | i < j <= k :: Claims(At(cfg, s, moves, j).world.stored)
  {
    var holds := seq(|moves| + 1, n requires 0 <= n <= |moves| => Claims(At(cfg, s, moves, n).world.stored));
    i := LastRise(holds, k);
    assert Allowed(Exec(cfg, s, moves[..i]), moves[i]);
    NextState(cfg, s, moves, i);
    assert holds[i + 1];
    MoveEarnsClaim(cfg, At(cfg, s, moves, i), moves[i]);
    assert forall j | i < j <= k :: holds[j] == Claims(At(cfg, s, moves, j).world.stored);
  }

  // ---------------------------------------------------------------- nothing happens before

  /** Nothing is deleted, applied or checked. */
  ghost predicate OnlyPrepares(log: seq<Event>) {
    forall x | x in log :: x.PrerequisitesInstalled? || x.OwnFinalizerAdded? || x.StatusWritten?
  }

  lemma EarlyJournal(cfg: Config, w: World, o: Object, e: Env, end: Ending)
    requires BeforePruning(end)
    ensures OnlyPrepares(Journal(cfg, w, o, e, end))
  {
    JournalBeforePruning(cfg, w, o, e, end);
    assert OnlyPrepares(Installing(w, o, e, end)) && OnlyPrepares(Closing(o, e, end));
  }

  lemma UnreadyEnding(cfg: Config, w: World, e: Env)
    requires w.stored.Some? && Consults(w.stored.value, e) && !CRDsPass(e)
    ensures BeforePruning(EndingOf(cfg, w, e))
    ensures Prepared(w, e) && e.client && HelmCRDs in w.stored.value.status.conditions ==>
              EndingOf(cfg, w, e) == if CRDsWait(e) then CRDsPending else CRDsFailed
  {
    PreparedEnding(cfg, w, e);
  }

  /** A Helm round that has to look at the definitions, and whose chart does not load, a definition of which is refused or not
      ready, does nothing but prepare. */
  lemma UnreadyDefinitionsStop(cfg: Config, w: World, e: Env)
    requires w.stored.Some? && Consults(w.stored.value, e) && !CRDsPass(e)
    ensures OnlyPrepares(Reconcile(cfg, w, e).log)
  {
    UnreadyEnding(cfg, w, e);
    EarlyJournal(cfg, w, w.stored.value, e, EndingOf(cfg, w, e));
    RoundIsLogged(cfg, w, e);
  }

  /** Once such a round gets so far, it comes back and persists the condition False, with the error state exactly when something
      failed. */
  lemma UnreadyDefinitionsAreTold(cfg: Config, w: World, e: Env)
    requires w.stored.Some? && Consults(w.stored.value, e) && !CRDsPass(e)
    requires Prepared(w, e) && e.client && HelmCRDs in w.stored.value.status.conditions && e.write
    ensures var o, r := w.stored.value, Reconcile(cfg, w, e);
            && r.result == Requeue && r.world.stored.Some?
            && var status := r.world.stored.value.status;
            && HelmCRDs in status.conditions && !status.conditions[HelmCRDs] && status.synced == o.status.synced
            && status.state == if CRDsWait(e) then o.status.state else StateError
  {
    UnreadyEnding(cfg, w, e);
    RoundIsTold(cfg, w, e);
  }

  /** In every run a Helm round prunes or applies only with definitions that it has seen itself, or that an earlier round has
      seen and that were called ready in every state since. */
  lemma HelmWorksOnSeenDefinitions(cfg: Config, s: System, moves: seq<Move>, n: nat) returns (i: nat)
    requires Fresh(s) && Legal(cfg, s, moves) && n < |moves| && moves[n].Reconciled? && moves[n].env.spec == Some(Helm)
    requires !OnlyPrepares(Reconcile(cfg, At(cfg, s, moves, n).world, moves[n].env).log)
    ensures i <= n && moves[i].Reconciled? && moves[i].env.spec == Some(Helm) && CRDsPass(moves[i].env)
    ensures forall j | i < j <= n :: Claims(At(cfg, s, moves, j).world.stored)
  {
    var w, e := At(cfg, s, moves, n).world, moves[n].env;
    i := n;
    if w.stored.Some? && !(Consults(w.stored.value, e) && CRDsPass(e)) {
      if Consults(w.stored.value, e) {
        UnreadyDefinitionsStop(cfg, w, e);
      } else {
        i := ClaimWasSeen(cfg, s, moves, n);
      }
    }
  }
}

/** Nothing the controller made outlives its finalizer, except what a round applied and forgot, took for part of another target or
    created as a prerequisite, and no held object was ever in charge of since. */
module LeakFreedom {
  import opened Identity
  import opened Model
  import opened Protocol
  import opened Runs
  import opened Books
  import opened Landing
  import T = Tracking

  /** After move `i` of a run no held object has ever been in charge of `k`. */
  ghost predicate Unattended(cfg: Config, s: System, moves: seq<Move>, i: nat, k: ObjectKey) {
    forall j | i < j <= |moves| :: k !in Charge(At(cfg, s, moves, j).world)
  }

  /** A round applies `k`, which was not tracked, and does not write its target down. */
  ghost predicate Loses(cfg: Config, w: World, e: Env, k: ObjectKey) {
    && w.stored.Some?
    && k in LandedIn(Reconcile(cfg, w, e).log)
    && k !in Keys(w.stored.value.status.synced)
    && !Rewrites(w.stored.value, e, Target(w.stored.value.deleting, e))
  }

  ghost predicate ForgottenBy(cfg: Config, s: System, moves: seq<Move>, i: nat, k: ObjectKey)
    requires i < |moves|
  {
    && moves[i].Reconciled?
    && Loses(cfg, At(cfg, s, moves, i).world, moves[i].env, k)
    && Unattended(cfg, s, moves, i, k)
  }

  /** Round `i` took the tracked `k` for part of its target, which it is not, and since then no held object has been in charge of
      it. */
  ghost predicate MislaidBy(cfg: Config, s: System, moves: seq<Move>, i: nat, k: ObjectKey)
    requires i < |moves|
  {
    && moves[i].Reconciled?
    && k in Mislaid(cfg, At(cfg, s, moves, i).world, moves[i].env)
    && Unattended(cfg, s, moves, i, k)
  }

  /** Round `i` created `k` as a prerequisite, and since then no held object has been in charge of it. */
  ghost predicate InstalledBy(cfg: Config, s: System, moves: seq<Move>, i: nat, k: ObjectKey)
    requires i < |moves|
  {
    && moves[i].Reconciled?
    && k in Installed(Reconcile(cfg, At(cfg, s, moves, i).world, moves[i].env).log)
    && Unattended(cfg, s, moves, i, k)
  }

  // ---------------------------------------------------------------- what the books call untracked was forgotten

  /** A round that leaves something it applied without anybody in charge did not track it before and did not write it down. */
  lemma OnlyLosingForgets(cfg: Config, w: World, e: Env, k: ObjectKey)
    requires k in LandedIn(Reconcile(cfg, w, e).log) && k !in Charge(Reconcile(cfg, w, e).world)
    ensures Loses(cfg, w, e, k)
  {
    if w.stored.Some? {
      RoundLands(cfg, w, e);
    }
  }

  lemma StillUnattended(cfg: Config, s: System, moves: seq<Move>, i: nat, k: ObjectKey)
    requires |moves| > 0 && i < |moves| - 1 && Unattended(cfg, s, moves[..|moves| - 1], i, k)
    requires k !in Charge(Exec(cfg, s, moves).world)
    ensures Unattended(cfg, s, moves, i, k)
    ensures At(cfg, s, moves[..|moves| - 1], i) == At(cfg, s, moves, i)
  {
    var init := moves[..|moves| - 1];
    assert init[..i] == moves[..i];
    forall j | i < j <= |moves| ensures k !in Charge(At(cfg, s, moves, j).world) {
      if j == |moves| {
        assert moves[..j] == moves;
      } else {
        assert moves[..j] == init[..j];
        assert k !in Charge(At(cfg, s, init, j).world);
      }
    }
  }

  /** The last round has just left `k` without anybody in charge. */
  lemma JustLeft(cfg: Config, s: System, moves: seq<Move>, k: ObjectKey)
    requires |moves| > 0 && moves[|moves| - 1].Reconciled? && k !in Charge(Exec(cfg, s, moves).world)
    ensures var n := |moves| - 1;
            var w, e := At(cfg, s, moves, n).world, moves[n].env;
            && (k in LandedIn(Reconcile(cfg, w, e).log) ==> ForgottenBy(cfg, s, moves, n, k))
            && (k in Mislaid(cfg, w, e) ==> MislaidBy(cfg, s, moves, n, k))
            && (k in Installed(Reconcile(cfg, w, e).log) ==> InstalledBy(cfg, s, moves, n, k))
  {
    var n := |moves| - 1;
    assert moves[..|moves|] == moves;
    var w, e := At(cfg, s, moves, n).world, moves[n].env;
    if k in LandedIn(Reconcile(cfg, w, e).log) {
      OnlyLosingForgets(cfg, w, e, k);
    }
  }

  lemma {:induction false} LeftHasNoCharge(cfg: Config, s: System, moves: seq<Move>, k: ObjectKey)
    requires Fresh(s) && Legal(cfg, s, moves) && FixedResource(cfg, s, moves)
    requires k in Exec(cfg, s, moves).untracked + Exec(cfg, s, moves).installed
    ensures k !in Charge(Exec(cfg, s, moves).world)
  {
    var n := |moves| - 1;
    var before := Exec(cfg, s, moves[..n]);
    assert Allowed(before, moves[n]) && KeepsResource(before, moves[n]);
    if moves[n].Outside? {
      LegalPrefix(cfg, s, moves, n);
      FixedPrefix(cfg, s, moves, n);
      LeftHasNoCharge(cfg, s, moves[..n], k);
    }
  }

  /** What the books call untracked was applied by one particular round that forgot it, or mislaid by one. */
  lemma {:induction false} UntrackedIsForgotten(cfg: Config, s: System, moves: seq<Move>, k: ObjectKey) returns (i: nat)
    requires Fresh(s) && Legal(cfg, s, moves) && FixedResource(cfg, s, moves)
    requires k in Exec(cfg, s, moves).untracked
    ensures i < |moves| && (ForgottenBy(cfg, s, moves, i, k) || MislaidBy(cfg, s, moves, i, k))
  {
    var n := |moves| - 1;
    LeftHasNoCharge(cfg, s, moves, k);
    if k in Exec(cfg, s, moves[..n]).untracked {
      LegalPrefix(cfg, s, moves, n);
      FixedPrefix(cfg, s, moves, n);
      i := UntrackedIsForgotten(cfg, s, moves[..n], k);
      StillUnattended(cfg, s, moves, i, k);
    } else {
      i := n;
      JustLeft(cfg, s, moves, k);
    }
  }

  /** What the books call installed was created by one particular round and never looked after since. */
  lemma {:induction false} InstalledIsUnattended(cfg: Config, s: System, moves: seq<Move>, k: ObjectKey) returns (i: nat)
    requires Fresh(s) && Legal(cfg, s, moves) && FixedResource(cfg, s, moves)
    requires k in Exec(cfg, s, moves).installed
    ensures i < |moves| && InstalledBy(cfg, s, moves, i, k)
  {
    var n := |moves| - 1;
    LeftHasNoCharge(cfg, s, moves, k);
    if k in Exec(cfg, s, moves[..n]).installed {
      LegalPrefix(cfg, s, moves, n);
      FixedPrefix(cfg, s, moves, n);
      i := InstalledIsUnattended(cfg, s, moves[..n], k);
      StillUnattended(cfg, s, moves, i, k);
    } else {
      i := n;
      JustLeft(cfg, s, moves, k);
    }
  }

  // ---------------------------------------------------------------- leak-freedom

  lemma TameFixesResource(cfg: Config, s: System, moves: seq<Move>)
    requires TameRun(cfg, s, moves)
    ensures FixedResource(cfg, s, moves)
  {
    forall i | 0 <= i < |moves| ensures KeepsResource(Exec(cfg, s, moves[..i]), moves[i]) {
      assert Tame(Exec(cfg, s, moves[..i]), moves[i]);
    }
  }

  /** Leak-freedom: in every run of a new object, for any sequence of specs and any answers, whenever the reconciler's
      finalizer is not on the object (so after its removal, and after the object is gone), an object the controller made is
      in the cluster only if some round applied it without writing it down, took it for part of a target that it is not part of,
      or created it as a prerequisite, and in no state since then was a held object in charge of it. */
  lemma LeakFreedom(cfg: Config, s: System, moves: seq<Move>, k: ObjectKey) returns (i: nat)
    requires Fresh(s) && Legal(cfg, s, moves) && TameRun(cfg, s, moves)
    requires !Held(Exec(cfg, s, moves).world)
    requires k in Exec(cfg, s, moves).world.cluster && k in Exec(cfg, s, moves).made
    ensures i < |moves|
    ensures ForgottenBy(cfg, s, moves, i, k) || MislaidBy(cfg, s, moves, i, k) || InstalledBy(cfg, s, moves, i, k)
  {
    ReleasedBooks(cfg, s, moves, k);
    TameFixesResource(cfg, s, moves);
    if k in Exec(cfg, s, moves).untracked {
      i := UntrackedIsForgotten(cfg, s, moves, k);
    } else {
      i := InstalledIsUnattended(cfg, s, moves, k);
    }
  }

  // ---------------------------------------------------------------- rounds that are all or nothing

  ghost predicate GoodTarget(m: Move) {
    m.Reconciled? && m.env.rendering.Rendered? ==> GoodList(m.env.rendering.target)
  }

  lemma {:induction false} TrackedListsAreGood(cfg: Config, s: System, moves: seq<Move>)
    requires Fresh(s) && Legal(cfg, s, moves) && forall m | m in moves :: GoodTarget(m)
    ensures var w := Exec(cfg, s, moves).world; w.stored.Some? ==> GoodList(w.stored.value.status.synced)
  {
    if moves != [] {
      var n := |moves| - 1;
      var before := Exec(cfg, s, moves[..n]);
      LegalPrefix(cfg, s, moves, n);
      TrackedListsAreGood(cfg, s, moves[..n]);
      assert Allowed(before, moves[n]) && moves[n] in moves;
      if moves[n].Reconciled? && before.world.stored.Some? {
        T.RoundTracking(cfg, before.world, moves[n].env);
      }
    }
  }

  /** Everything of the target is applied and written down, or nothing of it lands. */
  ghost predicate AllOrNothing(e: Env) {
    e.rendering.Rendered? ==> Records(e, e.rendering.target) || Landed(e, Keys(e.rendering.target)) == {}
  }

  lemma AllOrNothingForgetsNothing(cfg: Config, w: World, e: Env)
    requires w.stored.Some? && AllOrNothing(e)
    requires GoodList(w.stored.value.status.synced) && GoodList(Target(w.stored.value.deleting, e))
    ensures var r := Reconcile(cfg, w, e); LandedIn(r.log) <= Charge(r.world)
  {
    RoundLands(cfg, w, e);
    assert Keys([]) == {};
    if LandedIn(Reconcile(cfg, w, e).log) != {} {
      FaultlessRoundTracks(cfg, w, e);
    }
  }

  lemma AllOrNothingRunForgetsNothing(cfg: Config, s: System, moves: seq<Move>, i: nat, k: ObjectKey)
    requires Fresh(s) && Legal(cfg, s, moves) && forall m | m in moves :: GoodTarget(m)
    requires forall m | m in moves && m.Reconciled? :: AllOrNothing(m.env)
    requires i < |moves|
    ensures !ForgottenBy(cfg, s, moves, i, k)
  {
    var w := At(cfg, s, moves, i).world;
    if moves[i].Reconciled? && w.stored.Some? {
      LegalPrefix(cfg, s, moves, i);
      TrackedListsAreGood(cfg, s, moves[..i]);
      assert moves[i] in moves && GoodTarget(moves[i]);
      AllOrNothingForgetsNothing(cfg, w, moves[i].env);
      NextState(cfg, s, moves, i);
      assert LandedIn(Reconcile(cfg, w, moves[i].env).log) <= Charge(At(cfg, s, moves, i + 1).world);
    }
  }

  /** With rounds that are all or nothing and good lists, once the finalizer is off, all that is left of what the controller made
      was mislaid by some round or created as a prerequisite of the chart, and no held object was ever in charge of it since. */
  lemma AllOrNothingNeverLeaks(cfg: Config, s: System, moves: seq<Move>, k: ObjectKey) returns (i: nat)
    requires Fresh(s) && Legal(cfg, s, moves) && TameRun(cfg, s, moves)
    requires forall m | m in moves :: GoodTarget(m)
    requires forall m | m in moves && m.Reconciled? :: AllOrNothing(m.env)
    requires !Held(Exec(cfg, s, moves).world)
    requires k in Exec(cfg, s, moves).world.cluster && k in Exec(cfg, s, moves).made
    ensures i < |moves| && (MislaidBy(cfg, s, moves, i, k) || InstalledBy(cfg, s, moves, i, k))
  {
    i := LeakFreedom(cfg, s, moves, k);
    AllOrNothingRunForgetsNothing(cfg, s, moves, i, k);
  }
}

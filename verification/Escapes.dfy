/** What leak-freedom depends on: what a deletion leaves behind exactly, and which matching rules lose objects. */
module Escapes {
  import opened Identity
  import opened Model
  import opened Protocol
  import opened Runs
  import opened Calm
  import D = Deletion

  // ---------------------------------------------------------------- the exact leak of a deletion

  /** A calm deletion leaves of the made things exactly those that the object is not in charge of. So it is free of leaks if
      and only if, when it starts, everything made and still there is tracked or is the custom resource. */
  lemma DeletionLeaksExactly(cfg: Config, w: World, mode: RenderMode, crds: set<ObjectKey>, target: seq<Resource>, n: nat,
                             made: set<ObjectKey>)
    requires Settled(w) && w.stored.Some? && Own in w.stored.value.finalizers && n >= 6
    requires D.Finishing(cfg, w, mode, crds) && crds !! InCharge(w.stored.value)
    ensures var after := Turns(cfg, w, CalmEnv(mode, crds, target), n);
            && D.Released(after)
            && after.cluster.Keys * made - crds == w.cluster.Keys * made - crds - InCharge(w.stored.value)
            && (after.cluster.Keys * made <= crds <==>
                w.cluster.Keys * made <= crds + InCharge(w.stored.value))
  {
    var after := Turns(cfg, w, CalmEnv(mode, crds, target), n);
    D.TurnsTerminate(cfg, w, mode, crds, target, n);
    D.DeletionRemovesExactly(cfg, w, mode, crds, target, n);
    LeakAlgebra(after.cluster.Keys, w.cluster.Keys, crds, InCharge(w.stored.value), made);
  }

  lemma LeakAlgebra(after: set<ObjectKey>, before: set<ObjectKey>, crds: set<ObjectKey>, inCharge: set<ObjectKey>,
                    made: set<ObjectKey>)
    requires after - crds == before - inCharge - crds
    ensures after * made - crds == before * made - crds - inCharge
    ensures after * made <= crds <==> before * made <= crds + inCharge
  {
    assert after * made - crds == (after - crds) * made;
    assert before * made - crds - inCharge == (before - inCharge - crds) * made;
    NothingOver(after * made, crds);
    NothingOver(before * made, crds + inCharge);
    assert before * made - crds - inCharge == before * made - (crds + inCharge);
  }

  lemma NothingOver(a: set<ObjectKey>, b: set<ObjectKey>)
    ensures a <= b <==> a - b == {}
  {
    if a - b == {} {
      forall x | x in a ensures x in b {
        assert x !in a - b;
      }
    }
  }

  // ---------------------------------------------------------------- the matching rule

  /** The exact condition under which replacing one list by another loses no object: each tracked object is dropped, and so
      deleted, or is in the new list, if and only if nothing is mismatched. By group and kind nothing ever is; by kind alone
      nothing is exactly when an object whose namespace, name and kind the target names is there with its own group too. */
  lemma NothingIsLostIff(m: Matcher, current: seq<Resource>, target: seq<Resource>)
    ensures Keys(current) <= Dropped(m, current, target) + Keys(target) <==> Mismatched(m, current, target) == {}
    ensures m == ByGroupAndKind ==> Mismatched(m, current, target) == {}
    ensures m == ByKind ==>
              (Mismatched(m, current, target) == {} <==>
               forall r, t | r in current && t in target && r.ns == t.ns && r.name == t.name && r.gvk.kind == t.gvk.kind ::
                 exists u :: u in target && u.ns == r.ns && u.name == r.name && u.gvk.kind == r.gvk.kind
                             && u.gvk.group == r.gvk.group)
  {
    LostIffMismatched(m, current, target);
    if m == ByKind {
      KindRuleMatchesIff(current, target);
    }
  }

  lemma LostIffMismatched(m: Matcher, current: seq<Resource>, target: seq<Resource>)
    ensures Keys(current) <= Dropped(m, current, target) + Keys(target) <==> Mismatched(m, current, target) == {}
  {
    forall k | k in Keys(current)
      ensures k in Mismatched(m, current, target) <==> k !in Dropped(m, current, target) + Keys(target)
    {
      var r :| r in current && r.Key() == k;
      assert forall r' | r' in current && r'.Key() == k :: r'.MatchKey(m) == r.MatchKey(m);
    }
    assert forall k | k in Mismatched(m, current, target) :: k in Keys(current);
    NothingOver(Keys(current), Dropped(m, current, target) + Keys(target));
  }

  lemma KindRuleMatchesIff(current: seq<Resource>, target: seq<Resource>)
    ensures Mismatched(ByKind, current, target) == {} <==>
            forall r, t | r in current && t in target && r.ns == t.ns && r.name == t.name && r.gvk.kind == t.gvk.kind ::
              exists u :: u in target && u.ns == r.ns && u.name == r.name && u.gvk.kind == r.gvk.kind
                          && u.gvk.group == r.gvk.group
  {
    if Mismatched(ByKind, current, target) == {} {
      forall r, t | r in current && t in target && r.ns == t.ns && r.name == t.name && r.gvk.kind == t.gvk.kind
        ensures exists u :: u in target && u.ns == r.ns && u.name == r.name && u.gvk.kind == r.gvk.kind
                            && u.gvk.group == r.gvk.group
      {
        assert t.MatchKey(ByKind) == r.MatchKey(ByKind) && t.MatchKey(ByKind) in MatchKeys(ByKind, target);
        assert r.Key() !in Mismatched(ByKind, current, target);
        var u :| u in target && u.Key() == r.Key();
      }
    } else {
      var k :| k in Mismatched(ByKind, current, target);
      var r :| r in current && r.MatchKey(ByKind) in MatchKeys(ByKind, target) && r.Key() !in Keys(target);
      var t :| t in target && t.MatchKey(ByKind) == r.MatchKey(ByKind);
      assert r.ns == t.ns && r.name == t.name && r.gvk.kind == t.gvk.kind;
      assert forall u | u in target :: u.Key() != r.Key();
    }
  }

  lemma KindRuleForgets() returns (r: Resource, t: Resource)
    ensures r.Key() != t.Key() && DiffOf([r], [t]) != []
    ensures Dropped(ByKind, [r], [t]) == {} && r.Key() !in Keys([t])
  {
    r := Resource("", "", GroupVersionKind("a", "", ""));
    t := Resource("", "", GroupVersionKind("b", "", ""));
    assert r.MatchKey(ByKind) == t.MatchKey(ByKind);
    assert t in [t] && t.MatchKey(ByKind) in MatchKeys(ByKind, [t]);
    assert r.Slashless() && t.Slashless();
    if r.ID() == t.ID() {
      IDInjective(r, t);
    }
    DiffEmptyIffCovered([r], [t]);
    assert r in [r] && r.ID() in IDs([r]) && r.ID() !in IDs([t]);
  }
}

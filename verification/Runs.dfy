/** Runs of the protocol: any number of rounds with arbitrary answers, interleaved with moves of users, of other
    controllers and of the target cluster. */
module Runs {
  import opened Identity
  import opened Model
  import opened Protocol

  /** The world and its history: every key brought to life by an apply or by the custom resource hook; the keys that were
      applied or taken for part of another target, and the keys created as prerequisites, that no held object has been in
      charge of since; and all events. */
  datatype System = System(
    world: World,
    made: set<ObjectKey>,
    untracked: set<ObjectKey>,
    installed: set<ObjectKey>,
    log: seq<Event>)

  datatype Move = Reconciled(env: Env) | Outside(next: World)

  function MadeBy(e: Event): set<ObjectKey> {
    match e
    case Applied(_, landed, _) => landed
    case CustomResourceCreated(made) => made
    case _ => {}
  }

  function LandedBy(e: Event): set<ObjectKey> {
    if e.Applied? then e.landed else {}
  }

  function InstalledBy(e: Event): set<ObjectKey> {
    if e.PrerequisitesInstalled? then e.created else {}
  }

  function Made(log: seq<Event>): set<ObjectKey> {
    set e, k | e in log && k in MadeBy(e) :: k
  }

  function LandedIn(log: seq<Event>): set<ObjectKey> {
    set e, k | e in log && k in LandedBy(e) :: k
  }

  function Installed(log: seq<Event>): set<ObjectKey> {
    set e, k | e in log && k in InstalledBy(e) :: k
  }

  lemma HistoryOfOne(log: seq<Event>, e: Event)
    ensures Made(log + [e]) == Made(log) + MadeBy(e)
    ensures LandedIn(log + [e]) == LandedIn(log) + LandedBy(e)
    ensures Installed(log + [e]) == Installed(log) + InstalledBy(e)
  {
    var after := log + [e];
    assert forall x :: x in after <==> x in log || x == e;
    forall k | k in Made(log) + MadeBy(e) ensures k in Made(after) {
      if k in MadeBy(e) {
        assert e in after;
      } else {
        var x :| x in log && k in MadeBy(x);
        assert x in after;
      }
    }
    forall k | k in LandedIn(log) + LandedBy(e) ensures k in LandedIn(after) {
      if k in LandedBy(e) {
        assert e in after;
      } else {
        var x :| x in log && k in LandedBy(x);
        assert x in after;
      }
    }
    forall k | k in Installed(log) + InstalledBy(e) ensures k in Installed(after) {
      if k in InstalledBy(e) {
        assert e in after;
      } else {
        var x :| x in log && k in InstalledBy(x);
        assert x in after;
      }
    }
  }

  /** What a held object is in charge of. */
  function Charge(w: World): set<ObjectKey> {
    if Held(w) then InCharge(w.stored.value) else {}
  }

  /** The tracked objects that the matching rule takes for part of the target although they are not. */
  function Mismatched(m: Matcher, current: seq<Resource>, target: seq<Resource>): set<ObjectKey> {
    set r | r in current && r.MatchKey(m) in MatchKeys(m, target) && r.Key() !in Keys(target) :: r.Key()
  }

  /** Those of a round. */
  function Mislaid(cfg: Config, w: World, e: Env): set<ObjectKey> {
    if w.stored.None? then {}
    else Mismatched(cfg.matcher, w.stored.value.status.synced, Target(w.stored.value.deleting, e))
  }

  function Step(cfg: Config, s: System, m: Move): System {
    match m
    case Outside(next) => s.(world := next)
    case Reconciled(e) =>
      var r := Reconcile(cfg, s.world, e);
      System(r.world, s.made + Made(r.log), s.untracked + LandedIn(r.log) + Mislaid(cfg, s.world, e) - Charge(r.world),
             s.installed + Installed(r.log) - Charge(r.world), s.log + r.log)
  }

  function Exec(cfg: Config, s: System, moves: seq<Move>): System {
    if moves == [] then s else Step(cfg, Exec(cfg, s, moves[..|moves| - 1]), moves[|moves| - 1])
  }

  /** What others may do to the object: request its deletion, handle their own finalizers, write anything but the
      status and the two finalizers; and it is gone once nothing of ours holds it. */
  ghost predicate LeavesObject(w: World, next: World) {
    match (w.stored, next.stored)
    case (None, after) => after == None
    case (Some(o), None) => Own !in o.finalizers && OfCustomResource !in o.finalizers
    case (Some(o), Some(o')) =>
      && o'.status == o.status
      && (o.deleting ==> o'.deleting)
      && (Own in o'.finalizers <==> Own in o.finalizers)
      && (OfCustomResource in o'.finalizers <==> OfCustomResource in o.finalizers)
  }

  /** Nobody changes which custom resource the spec names. */
  ghost predicate KeepsResource(s: System, m: Move) {
    m.Outside? && s.world.stored.Some? && m.next.stored.Some? ==> m.next.stored.value.resource == s.world.stored.value.resource
  }

  ghost predicate FixedResource(cfg: Config, s: System, moves: seq<Move>) {
    forall i | 0 <= i < |moves| :: KeepsResource(Exec(cfg, s, moves[..i]), moves[i])
  }

  /** Nobody else creates an object that the controller made: objects may only vanish or start terminating. */
  ghost predicate CreatesNothing(s: System, next: World) {
    next.cluster.Keys * s.made <= s.world.cluster.Keys
  }

  ghost predicate Allowed(s: System, m: Move) {
    m.Outside? ==> LeavesObject(s.world, m.next)
  }

  ghost predicate Legal(cfg: Config, s: System, moves: seq<Move>) {
    forall i | 0 <= i < |moves| :: Allowed(Exec(cfg, s, moves[..i]), moves[i])
  }

  /** A new object that nobody has reconciled yet. */
  ghost predicate Fresh(s: System) {
    && s.world.stored.Some?
    && s.world.stored.value.status == NewStatus
    && Own !in s.world.stored.value.finalizers
    && OfCustomResource !in s.world.stored.value.finalizers
    && s.made == {} && s.untracked == {} && s.installed == {} && s.log == []
  }

  lemma LegalPrefix(cfg: Config, s: System, moves: seq<Move>, n: nat)
    requires n <= |moves| && Legal(cfg, s, moves)
    ensures Legal(cfg, s, moves[..n])
  {
    forall i | 0 <= i < n ensures Allowed(Exec(cfg, s, moves[..n][..i]), moves[..n][i]) {
      assert moves[..n][..i] == moves[..i];
    }
  }

  lemma FixedPrefix(cfg: Config, s: System, moves: seq<Move>, n: nat)
    requires n <= |moves| && FixedResource(cfg, s, moves)
    ensures FixedResource(cfg, s, moves[..n])
  {
    forall i | 0 <= i < n ensures KeepsResource(Exec(cfg, s, moves[..n][..i]), moves[..n][i]) {
      assert moves[..n][..i] == moves[..i];
    }
  }

  /** The state after the first `n` moves. */
  function At(cfg: Config, s: System, moves: seq<Move>, n: nat): System
    requires n <= |moves|
  {
    Exec(cfg, s, moves[..n])
  }

  lemma NextState(cfg: Config, s: System, moves: seq<Move>, n: nat)
    requires n < |moves|
    ensures At(cfg, s, moves, n + 1) == Step(cfg, At(cfg, s, moves, n), moves[n])
  {
    assert moves[..n + 1][..n] == moves[..n];
  }
}

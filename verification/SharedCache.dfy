/** One in-memory cache that many reconciles share: any interleaving of looking, filling, expiring, and changing in place what
    was handed out before. */
module SharedCache {
  import opened CacheKeys
  import opened DiskCache
  import opened Hashing
  import opened Identity
  import opened ManifestCache
  import opened Model
  import opened Objects
  import opened Text

  // ---------------------------------------------------------------- the cache by value

  /** What a reconcile was handed, as it is now. */
  datatype Copy = Copy(job: Job, manifest: Manifest)

  datatype State = State(entries: map<string, Manifest>, files: map<Place, string>, pool: seq<Copy>)

  /** A reconcile looks into the cache, and on a miss fills it, possibly after others have taken steps; it changes any object
      it was handed in any way; it transforms and converts all of them. Entries expire and files get lost. */
  datatype Step =
    | Look(job: Job)
    | Fill(job: Job, answers: Answers)
    | Write(copy: nat, item: nat, content: Content)
    | Finish(copy: nat)
    | Expire(keys: set<string>)
    | Lose(places: set<Place>)

  datatype Output = Nothing | Target(target: Option<seq<Resource>>)

  ghost predicate Filled(u: Setup, s: State, s': State, key: string, renderer: Renderer, j: Job, a: Answers) {
    var m := Parsed(u.parse, s.files, renderer, a);
    && RendererCalled(s.files, s'.files, renderer, a)
    && s'.entries == (if m.Some? then s.entries[key := m.value] else s.entries)
    && s'.pool == (if m.Some? then s.pool + [Copy(j, m.value)] else s.pool)
  }

  /** One step of a cache whose entries and copies are values, so that no copy can share anything with an entry. */
  ghost predicate Next(u: Setup, s: State, step: Step, s': State, out: Output) {
    match step
    case Look(j) =>
      var key := MemoryKey(j.spec);
      s' == (if key in s.entries then s.(pool := s.pool + [Copy(j, s.entries[key])]) else s)
    case Fill(j, a) =>
      Filled(u, s, s', MemoryKey(j.spec), RendererOf(u, j.spec), j, a)
    case Write(i, n, content) =>
      s' == (if i < |s.pool| && n < |s.pool[i].manifest.items|
             then s.(pool := s.pool[i := Overwritten(s.pool[i], n, content)]) else s)
    case Finish(i) =>
      && s'.entries == s.entries && s'.files == s.files && |s'.pool| == |s.pool|
      && (forall k | 0 <= k < |s.pool| && k != i :: s'.pool[k] == s.pool[k])
      && (i < |s.pool| ==> out == Target(TargetOf(s.pool[i].job, s.pool[i].manifest.items)))
    case Expire(keys) =>
      s' == s.(entries := s.entries - keys)
    case Lose(places) =>
      s' == s.(files := s.files - places)
  }

  function Overwritten(c: Copy, n: nat, content: Content): Copy
    requires n < |c.manifest.items|
  {
    c.(manifest := c.manifest.(items := c.manifest.items[n := content]))
  }

  // ---------------------------------------------------------------- the cache on the heap

  datatype Handed = Handed(job: Job, resources: ManifestResources)

  class Shared {
    const cache: InMemoryManifestCache
    var pool: seq<Handed>

    constructor (cache: InMemoryManifestCache)
      ensures this.cache == cache && pool == []
    {
      this.cache, pool := cache, [];
    }

    /** All objects that were ever handed out. */
    ghost function Out(): set<Unstructured>
      reads this
    {
      set h, obj | h in pool && obj in h.resources.items :: obj
    }

    /** No object is both cached and handed out, or handed out twice. */
    ghost predicate Valid()
      reads this, cache
    {
      && Out() !! cache.Held()
      && (forall i | 0 <= i < |pool| :: Distinct(pool[i].resources.items))
      && (forall i, j, obj | 0 <= i < j < |pool| && obj in pool[i].resources.items :: obj !in pool[j].resources.items)
    }

    ghost function Copies(): (cs: seq<Copy>)
      reads this, Out()
      ensures |cs| == |pool|
      ensures forall i | 0 <= i < |pool| :: cs[i] == Copy(pool[i].job, Value(pool[i].resources))
    {
      assert forall i, obj | 0 <= i < |pool| && obj in pool[i].resources.items :: obj in Out();
      seq(|pool|, i requires 0 <= i < |pool| reads this, Out() =>
        assert forall obj | obj in pool[i].resources.items :: obj in Out();
        Copy(pool[i].job, Value(pool[i].resources)))
    }

    ghost function Abs(): State
      reads this, cache, cache.disk, cache.Held(), Out()
    {
      State(cache.Entries(), cache.disk.files, Copies())
    }

    method HandOut(j: Job, r: ManifestResources)
      requires Valid() && Distinct(r.items) && forall obj | obj in r.items :: obj !in Out() && obj !in cache.Held()
      modifies this
      ensures Valid() && Out() == old(Out()) + (set obj | obj in r.items)
      ensures Copies() == old(Copies()) + [Copy(j, Value(r))]
    {
      ghost var before := Copies();
      var h := Handed(j, r);
      pool := pool + [h];
      assert Out() == old(Out()) + (set obj | obj in r.items) by {
        assert forall x | x in pool :: x in old(pool) || x == h;
        assert h in pool && forall x | x in old(pool) :: x in pool;
      }
      assert Copies() == before + [Copy(j, Value(r))];
    }

    /** Changing the objects of one copy changes no other copy and no entry. */
    twostate lemma OthersStay(i: nat)
      requires old(Valid()) && unchanged(this) && unchanged(cache) && i < |pool|
      requires forall obj | obj in old(Out()) + old(cache.Held()) && obj !in pool[i].resources.items :: unchanged(obj)
      ensures Valid() && cache.Entries() == old(cache.Entries()) && Out() == old(Out())
      ensures forall k | 0 <= k < |pool| && k != i :: Copies()[k] == old(Copies())[k]
    {
      assert pool[i] in old(pool);
      assert forall obj | obj in pool[i].resources.items :: obj in old(Out());
      cache.EntriesStay();
      forall k | 0 <= k < |pool| && k != i ensures Copies()[k] == old(Copies())[k] {
        var items := pool[k].resources.items;
        forall n | 0 <= n < |items| ensures items[n].content == old(items[n].content) {
          assert items[n] in items && pool[k] in old(pool) && items[n] in old(Out());
          assert items[n] !in pool[i].resources.items;
        }
        assert Contents(items) == old(Contents(items));
      }
    }

    method WriteItem(i: nat, n: nat, content: Content)
      requires Valid() && i < |pool| && n < |pool[i].resources.items|
      modifies pool[i].resources.items
      ensures Valid() && cache.Entries() == old(cache.Entries()) && Out() == old(Out())
      ensures Copies() == old(Copies())[i := Overwritten(old(Copies())[i], n, content)]
    {
      var items := pool[i].resources.items;
      items[n].Overwrite(content);
      OthersStay(i);
      assert Contents(items) == old(Contents(items))[n := content];
    }

    method FinishCopy(i: nat) returns (target: Option<seq<Resource>>)
      requires Valid() && i < |pool|
      modifies pool[i].resources.items
      ensures Valid() && cache.Entries() == old(cache.Entries()) && Out() == old(Out())
      ensures target == TargetOf(old(Copies())[i].job, old(Copies())[i].manifest.items)
      ensures forall k | 0 <= k < |pool| && k != i :: Copies()[k] == old(Copies())[k]
    {
      target := ManifestCache.Finish(pool[i].job, pool[i].resources.items);
      OthersStay(i);
    }

    method WriteInto(i: nat, n: nat, content: Content)
      requires Valid()
      modifies Out()
      ensures Valid() && Next(cache.setup, old(Abs()), Write(i, n, content), Abs(), Nothing) && Out() == old(Out())
    {
      if i < |pool| && n < |pool[i].resources.items| {
        assert forall obj | obj in pool[i].resources.items :: pool[i] in pool && obj in Out();
        WriteItem(i, n, content);
      }
    }

    method FinishJob(i: nat) returns (out: Output)
      requires Valid()
      modifies Out()
      ensures Valid() && Next(cache.setup, old(Abs()), Finish(i), Abs(), out) && Out() == old(Out())
    {
      out := Nothing;
      if i < |pool| {
        assert forall obj | obj in pool[i].resources.items :: pool[i] in pool && obj in Out();
        var target := FinishCopy(i);
        out := Target(target);
      }
    }

    method LookInto(j: Job)
      requires Valid()
      modifies this
      ensures Valid() && Next(cache.setup, old(Abs()), Look(j), Abs(), Nothing)
      ensures forall obj | obj in Out() :: obj in old(Out()) || fresh(obj)
    {
      var r := cache.Look(MemoryKey(j.spec));
      if r.Some? {
        HandOut(j, r.value);
      }
    }

    method FillWith(key: string, renderer: Renderer, j: Job, a: Answers)
      requires Valid()
      modifies this, cache, cache.disk
      ensures Valid() && Filled(cache.setup, old(Abs()), Abs(), key, renderer, j, a)
      ensures forall obj | obj in Out() :: obj in old(Out()) || fresh(obj)
    {
      var r := cache.Fill(key, renderer, a);
      assert Valid();
      if r.Some? {
        HandOut(j, r.value);
      }
    }

    /** The cache that hands out references takes exactly the steps of the cache that hands out values. */
    method Do(step: Step) returns (out: Output)
      requires Valid()
      modifies this, cache, cache.disk, Out()
      ensures Valid() && Next(cache.setup, old(Abs()), step, Abs(), out)
      ensures forall obj | obj in Out() :: obj in old(Out()) || fresh(obj)
    {
      out := Nothing;
      match step
      case Look(j) => LookInto(j);
      case Fill(j, a) => FillWith(MemoryKey(j.spec), RendererOf(cache.setup, j.spec), j, a);
      case Write(i, n, content) => WriteInto(i, n, content);
      case Finish(i) => out := FinishJob(i);
      case Expire(keys) => cache.Expire(keys);
      case Lose(places) => cache.disk.Lose(places);
    }
  }

  // ---------------------------------------------------------------- every interleaving

  ghost predicate Trace(u: Setup, states: seq<State>, steps: seq<Step>, outs: seq<Output>) {
    && |states| == |steps| + 1 && |outs| == |steps|
    && forall n | 0 <= n < |steps| :: Next(u, states[n], steps[n], states[n + 1], outs[n])
  }

  lemma TraceGrows(u: Setup, states: seq<State>, steps: seq<Step>, outs: seq<Output>, n: nat, s: State, out: Output)
    requires n < |steps| && Trace(u, states, steps[..n], outs) && Next(u, states[n], steps[n], s, out)
    ensures Trace(u, states + [s], steps[..n + 1], outs + [out])
  {
    var states', outs' := states + [s], outs + [out];
    forall i | 0 <= i < n + 1 ensures Next(u, states'[i], steps[..n + 1][i], states'[i + 1], outs'[i]) {
      if i < n {
        assert Next(u, states[i], steps[..n][i], states[i + 1], outs[i]);
      }
    }
  }

  /** Every interleaving of the steps of any number of reconciles, with colliding keys and arbitrary writes to everything that
      was handed out at any time, is one of the cache by value. */
  method Run(shared: Shared, steps: seq<Step>) returns (outs: seq<Output>, ghost states: seq<State>)
    requires shared.Valid()
    modifies shared, shared.cache, shared.cache.disk, shared.Out()
    ensures shared.Valid() && Trace(shared.cache.setup, states, steps, outs)
    ensures states[0] == old(shared.Abs()) && states[|steps|] == shared.Abs()
  {
    outs, states := [], [shared.Abs()];
    for n := 0 to |steps|
      invariant shared.Valid() && |outs| == n && |states| == n + 1
      invariant forall obj | obj in shared.Out() :: obj in old(shared.Out()) || fresh(obj)
      invariant states[0] == old(shared.Abs()) && states[n] == shared.Abs()
      invariant Trace(shared.cache.setup, states, steps[..n], outs)
    {
      var out := shared.Do(steps[n]);
      TraceGrows(shared.cache.setup, states, steps, outs, n, shared.Abs(), out);
      outs, states := outs + [out], states + [shared.Abs()];
    }
    assert steps[..|steps|] == steps;
  }

  /** The steps after which an entry may be another one. */
  predicate Replaces(step: Step, key: string) {
    (step.Expire? && key in step.keys) || (step.Fill? && MemoryKey(step.job.spec) == key)
  }

  /** An entry stays as it is until it expires or is filled again, whatever is done to what was handed out. */
  lemma {:induction false} EntryStays(u: Setup, states: seq<State>, steps: seq<Step>, outs: seq<Output>, key: string,
                                      i: nat, j: nat)
    requires Trace(u, states, steps, outs) && i <= j <= |steps| && key in states[i].entries
    requires forall n | i <= n < j :: !Replaces(steps[n], key)
    ensures key in states[j].entries && states[j].entries[key] == states[i].entries[key]
    decreases j - i
  {
    if i < j {
      EntryStays(u, states, steps, outs, key, i, j - 1);
      assert Next(u, states[j - 1], steps[j - 1], states[j], outs[j - 1]) && !Replaces(steps[j - 1], key);
    }
  }

  /** Every hit until then hands out exactly what was cached. */
  lemma HitsEqualTheEntry(u: Setup, states: seq<State>, steps: seq<Step>, outs: seq<Output>, i: nat, j: nat)
    requires Trace(u, states, steps, outs) && i <= j < |steps| && steps[j].Look?
    requires var key := MemoryKey(steps[j].job.spec);
             key in states[i].entries && forall n | i <= n < j :: !Replaces(steps[n], key)
    ensures states[j + 1] ==
            states[j].(pool := states[j].pool + [Copy(steps[j].job, states[i].entries[MemoryKey(steps[j].job.spec)])])
  {
    EntryStays(u, states, steps, outs, MemoryKey(steps[j].job.spec), i, j);
    assert Next(u, states[j], steps[j], states[j + 1], outs[j]);
  }

  /** The steps that change a copy: only those of the reconcile that has it. */
  predicate Touches(step: Step, p: nat) {
    (step.Write? && step.copy == p) || (step.Finish? && step.copy == p)
  }

  lemma {:induction false} CopyStays(u: Setup, states: seq<State>, steps: seq<Step>, outs: seq<Output>, p: nat, i: nat, j: nat)
    requires Trace(u, states, steps, outs) && i <= j <= |steps| && p < |states[i].pool|
    requires forall n | i <= n < j :: !Touches(steps[n], p)
    ensures p < |states[j].pool| && states[j].pool[p] == states[i].pool[p]
    decreases j - i
  {
    if i < j {
      CopyStays(u, states, steps, outs, p, i, j - 1);
      assert Next(u, states[j - 1], steps[j - 1], states[j], outs[j - 1]) && !Touches(steps[j - 1], p);
    }
  }

  // ---------------------------------------------------------------- the caches do not show

  /** Specs that share a key parse to the same. */
  ghost predicate KeysAgree(u: Setup, specs: set<Spec>) {
    forall s, t | s in specs && t in specs && MemoryKey(s) == MemoryKey(t) :: Uncached(u, s) == Uncached(u, t)
  }

  /** Every entry of one of the specs holds what its spec parses to without a cache, and every file of one parses to that. */
  ghost predicate Transparent(u: Setup, specs: set<Spec>, s: State) {
    && FilesAreTrue(u, specs, s.files)
    && forall t | t in specs && MemoryKey(t) in s.entries :: Uncached(u, t) == Some(s.entries[MemoryKey(t)])
  }

  ghost predicate Allowed(step: Step, specs: set<Spec>) {
    && (step.Look? || step.Fill? ==> step.job.spec in specs)
    && (step.Fill? ==> !step.answers.write.BrokenOff?)
  }

  /** Whatever was handed out in a step is what parsing without a cache gives. */
  ghost predicate HandsOutTruth(u: Setup, s: State, step: Step, s': State) {
    && |s.pool| <= |s'.pool|
    && (|s.pool| < |s'.pool| ==>
          && (step.Look? || step.Fill?) && |s'.pool| == |s.pool| + 1
          && s'.pool[|s.pool|].job == step.job
          && Uncached(u, step.job.spec) == Some(s'.pool[|s.pool|].manifest))
  }

  /** The files that belong to one of the specs parse to what it parses to. */
  ghost predicate FilesAreTrue(u: Setup, specs: set<Spec>, files: map<Place, string>) {
    forall t | t in specs && PlaceOf(u.base, t) in files :: u.parse(files[PlaceOf(u.base, t)]) == Uncached(u, t)
  }

  lemma CallKeepsFilesTrue(u: Setup, specs: set<Spec>, before: map<Place, string>, after: map<Place, string>, s: Spec, a: Answers)
    requires KeysAgree(u, specs) && FilesAreTrue(u, specs, before) && s in specs && !a.write.BrokenOff?
    requires RendererCalled(before, after, RendererOf(u, s), a)
    ensures FilesAreTrue(u, specs, after)
    ensures var m := Parsed(u.parse, before, RendererOf(u, s), a); m.Some? ==> m == Uncached(u, s)
  {
    var own := PlaceOf(u.base, s);
    assert FileOf(after, own) == FileOf(before, own) || FileOf(after, own) == Some(u.render(s));
    forall t | t in specs && PlaceOf(u.base, t) in after ensures u.parse(after[PlaceOf(u.base, t)]) == Uncached(u, t) {
      if PlaceOf(u.base, t) == own {
        SamePlace(u.base, s, t);
      }
    }
  }

  lemma FillIsTransparent(u: Setup, specs: set<Spec>, s: State, j: Job, a: Answers, s': State)
    requires KeysAgree(u, specs) && Transparent(u, specs, s) && j.spec in specs && !a.write.BrokenOff?
    requires Next(u, s, Fill(j, a), s', Nothing)
    ensures Transparent(u, specs, s') && HandsOutTruth(u, s, Fill(j, a), s')
    ensures Calm(a) && Uncached(u, j.spec).Some? ==> |s'.pool| == |s.pool| + 1
  {
    CallKeepsFilesTrue(u, specs, s.files, s'.files, j.spec, a);
  }

  lemma NextIsTransparent(u: Setup, specs: set<Spec>, s: State, step: Step, s': State, out: Output)
    requires KeysAgree(u, specs) && Transparent(u, specs, s) && Allowed(step, specs) && Next(u, s, step, s', out)
    ensures Transparent(u, specs, s') && HandsOutTruth(u, s, step, s')
  {
    if step.Fill? {
      FillIsTransparent(u, specs, s, step.job, step.answers, s');
    }
  }

  lemma {:induction false} TraceIsTransparent(u: Setup, specs: set<Spec>, states: seq<State>, steps: seq<Step>,
                                              outs: seq<Output>, n: nat)
    requires Trace(u, states, steps, outs) && KeysAgree(u, specs) && Transparent(u, specs, states[0]) && n <= |steps|
    requires forall step | step in steps :: Allowed(step, specs)
    ensures Transparent(u, specs, states[n])
    ensures n < |steps| ==> HandsOutTruth(u, states[n], steps[n], states[n + 1])
  {
    if n > 0 {
      TraceIsTransparent(u, specs, states, steps, outs, n - 1);
      assert steps[n - 1] in steps;
      NextIsTransparent(u, specs, states[n - 1], steps[n - 1], states[n], outs[n - 1]);
    }
    if n < |steps| {
      assert steps[n] in steps;
      NextIsTransparent(u, specs, states[n], steps[n], states[n + 1], outs[n]);
    }
  }

  /** Every target is the one that would have been computed without caches: what a reconcile makes of the copy it was handed in
      step `n`, however late and whatever the others have done in between. */
  lemma TargetsAreTrue(u: Setup, specs: set<Spec>, states: seq<State>, steps: seq<Step>, outs: seq<Output>, n: nat, k: nat)
    requires Trace(u, states, steps, outs) && KeysAgree(u, specs) && Transparent(u, specs, states[0])
    requires forall step | step in steps :: Allowed(step, specs)
    requires n < k < |steps| && |states[n].pool| < |states[n + 1].pool| && steps[k] == Finish(|states[n].pool|)
    requires forall i | n < i < k :: !Touches(steps[i], |states[n].pool|)
    ensures (steps[n].Look? || steps[n].Fill?) && outs[k] == Target(Reference(u, steps[n].job))
  {
    TraceIsTransparent(u, specs, states, steps, outs, n);
    CopyStays(u, states, steps, outs, |states[n].pool|, n + 1, k);
    assert Next(u, states[k], steps[k], states[k + 1], outs[k]);
  }

  // ---------------------------------------------------------------- exactly when

  const Empty := State(map[], map[], [])

  /** An interleaving of reconciles of the specs that starts with empty caches. */
  ghost predicate Starts(u: Setup, specs: set<Spec>, states: seq<State>, steps: seq<Step>, outs: seq<Output>) {
    Trace(u, states, steps, outs) && states[0] == Empty && forall step | step in steps :: Allowed(step, specs)
  }

  ghost predicate OnlyTruth(u: Setup, states: seq<State>, steps: seq<Step>)
    requires |states| == |steps| + 1
  {
    forall n | 0 <= n < |steps| :: HandsOutTruth(u, states[n], steps[n], states[n + 1])
  }

  /** Whatever any such interleaving hands out is true. */
  ghost predicate AlwaysTrue(u: Setup, specs: set<Spec>) {
    forall states, steps, outs | Starts(u, specs, states, steps, outs) :: OnlyTruth(u, states, steps)
  }

  /** Of two specs that share a key and parse differently, the second gets the first one's objects: one reconcile fills the
      cache and another one looks. */
  lemma CollidingKeysConfuse(u: Setup, s: Job, t: Job) returns (a: Answers, filled: State, looked: State)
    requires MemoryKey(s.spec) == MemoryKey(t.spec) && Uncached(u, s.spec).Some? && Uncached(u, s.spec) != Uncached(u, t.spec)
    ensures Calm(a) && Next(u, Empty, Fill(s, a), filled, Nothing) && Next(u, filled, Look(t), looked, Nothing)
    ensures looked.pool == filled.pool + [Copy(t, Uncached(u, s.spec).value)]
    ensures !HandsOutTruth(u, filled, Look(t), looked)
  {
    a := Answers({}, false, false, Written);
    var m := Uncached(u, s.spec).value;
    filled := State(map[MemoryKey(s.spec) := m], map[PlaceOf(u.base, s.spec) := u.render(s.spec)], [Copy(s, m)]);
    looked := filled.(pool := filled.pool + [Copy(t, m)]);
  }

  lemma TwoSteps(u: Setup, specs: set<Spec>, a: State, s: Step, b: State, t: Step, c: State)
    requires a == Empty && Allowed(s, specs) && Allowed(t, specs) && Next(u, a, s, b, Nothing) && Next(u, b, t, c, Nothing)
    ensures Starts(u, specs, [a, b, c], [s, t], [Nothing, Nothing])
  {
    var states, steps, outs := [a, b, c], [s, t], [Nothing, Nothing];
    forall n | 0 <= n < 2 ensures Next(u, states[n], steps[n], states[n + 1], outs[n]) {
      if n == 1 {
        assert states[n] == b && states[n + 1] == c && steps[n] == t;
      }
    }
  }

  lemma DisagreeingKeysShow(u: Setup, specs: set<Spec>, s: Job, t: Job)
    requires s.spec in specs && t.spec in specs
    requires MemoryKey(s.spec) == MemoryKey(t.spec) && Uncached(u, s.spec).Some? && Uncached(u, s.spec) != Uncached(u, t.spec)
    ensures !AlwaysTrue(u, specs)
  {
    var a, filled, looked := CollidingKeysConfuse(u, s, t);
    TwoSteps(u, specs, Empty, Fill(s, a), filled, Look(t), looked);
    var states, steps := [Empty, filled, looked], [Fill(s, a), Look(t)];
    assert !HandsOutTruth(u, states[1], steps[1], states[2]);
    assert !OnlyTruth(u, states, steps);
  }

  /** The exact condition under which the caches never show: specs that share a key parse to the same. */
  lemma TransparentIff(u: Setup, specs: set<Spec>)
    ensures AlwaysTrue(u, specs) <==> KeysAgree(u, specs)
  {
    if KeysAgree(u, specs) {
      forall states, steps, outs | Starts(u, specs, states, steps, outs) ensures OnlyTruth(u, states, steps) {
        forall n | 0 <= n < |steps| ensures HandsOutTruth(u, states[n], steps[n], states[n + 1]) {
          TraceIsTransparent(u, specs, states, steps, outs, n);
        }
      }
    } else {
      var s, t :| s in specs && t in specs && MemoryKey(s) == MemoryKey(t) && Uncached(u, s) != Uncached(u, t);
      var job: Job := *;
      if Uncached(u, s).Some? {
        DisagreeingKeysShow(u, specs, job.(spec := s), job.(spec := t));
      } else {
        DisagreeingKeysShow(u, specs, job.(spec := t), job.(spec := s));
      }
    }
  }

  /** It is met by specs with flat names whose values do not collide under the hash. */
  lemma FlatSpecsAgree(u: Setup, specs: set<Spec>)
    requires forall s | s in specs :: Free(s.name, '/')
    requires forall s, t | s in specs && t in specs && Hash(s.values) == Hash(t.values) :: s.values == t.values
    ensures AlwaysTrue(u, specs)
  {
    NoCollisionsDetermine(u.render, specs);
    TransparentIff(u, specs);
  }
}

/** The disk cache around a renderer: one directory per path, holding the rendered manifest of the current spec. */
module DiskCache {
  import opened CacheKeys
  import opened Hashing
  import opened Model
  import opened Text

  /** How writing a file ends; a write that breaks off leaves what was written so far. */
  datatype Write = Written | NotCreated | BrokenOff(count: nat) | NotClosed

  /** What the file system and the renderer answer to one call. */
  datatype Answers = Answers(stuck: set<Place>, unreadable: bool, unrendered: bool, write: Write)

  /** A file that cleaning removes: in the same directory, under another name. */
  predicate Stale(p: Place, own: Place) {
    p.root == own.root && p != own
  }

  /** The order in which a directory is walked. */
  predicate Before(a: string, b: string) {
    b != "" && (a == "" || a[0] < b[0] || (a[0] == b[0] && Before(a[1..], b[1..])))
  }

  /** The texts agree up to `k`, and there the first one ends or has the smaller character. */
  predicate DiffersAt(a: string, b: string, k: nat) {
    k <= |a| && k < |b| && a[..k] == b[..k] && (k == |a| || a[k] < b[k])
  }

  lemma {:induction false} BeforeIff(a: string, b: string)
    ensures Before(a, b) <==> exists k: nat :: DiffersAt(a, b, k)
    decreases |a|
  {
    if a != "" && b != "" && a[0] == b[0] {
      BeforeIff(a[1..], b[1..]);
      if k: nat :| DiffersAt(a[1..], b[1..], k) {
        assert a[..k + 1] == [a[0]] + a[1..][..k] && b[..k + 1] == [b[0]] + b[1..][..k];
        assert DiffersAt(a, b, k + 1);
      }
      if k: nat :| DiffersAt(a, b, k) {
        assert k > 0;
        assert a[1..][..k - 1] == a[..k][1..] && b[1..][..k - 1] == b[..k][1..];
        assert DiffersAt(a[1..], b[1..], k - 1);
      }
    } else if b != "" {
      assert a == "" || a[0] < b[0] <==> DiffersAt(a, b, 0);
      forall k: nat | k > 0 {
        SameStart(a, b, k);
      }
    }
  }

  lemma SameStart(a: string, b: string, k: nat)
    requires k > 0
    ensures DiffersAt(a, b, k) ==> a != "" && b != "" && a[0] == b[0]
  {
    if DiffersAt(a, b, k) {
      assert a[0] == a[..k][0] && b[0] == b[..k][0];
    }
  }

  lemma {:induction false} BeforeIsTotal(a: string, b: string)
    ensures Before(a, b) || Before(b, a) || a == b
    ensures !(Before(a, b) && Before(b, a)) && !Before(a, a)
    decreases |a|
  {
    if a != "" {
      BeforeIsTotal(a[1..], if b == "" then "" else b[1..]);
      if b != "" && a[0] == b[0] && a[1..] == b[1..] {
        assert a == [a[0]] + a[1..] == [b[0]] + b[1..] == b;
      }
    }
  }

  lemma {:induction false} BeforeIsTransitive(a: string, b: string, c: string)
    requires Before(a, b) && Before(b, c)
    ensures Before(a, c)
    decreases |a|
  {
    if a != "" && a[0] == b[0] && b[0] == c[0] {
      BeforeIsTransitive(a[1..], b[1..], c[1..]);
    }
  }

  predicate IsFirst(p: Place, places: set<Place>) {
    p in places && forall q | q in places && q != p :: Before(p.name, q.name)
  }

  lemma {:induction false} FirstExists(places: set<Place>) returns (first: Place)
    requires places != {} && forall q, r | q in places && r in places :: q.root == r.root
    ensures IsFirst(first, places)
    decreases |places|
  {
    var p :| p in places;
    var rest := places - {p};
    first := p;
    assert forall q | q in places && q != p :: q in rest;
    if rest != {} {
      var q := FirstExists(rest);
      assert p.root == q.root && p.name != q.name;
      BeforeIsTotal(p.name, q.name);
      first := if Before(p.name, q.name) then p else q;
      forall r | r in places && r != first ensures Before(first.name, r.name) {
        if r != p && r != q && first == p {
          BeforeIsTransitive(p.name, q.name, r.name);
        }
      }
    }
  }

  function Prefix(text: string, count: nat): string {
    if count <= |text| then text[..count] else text
  }

  // ---------------------------------------------------------------- one call, as a relation

  ghost predicate Cleans(files: map<Place, string>, own: Place, a: Answers) {
    forall p | p in files && Stale(p, own) :: p !in a.stuck
  }

  predicate Cached(files: map<Place, string>, own: Place, a: Answers) {
    own in files && !a.unreadable
  }

  function FileOf(files: map<Place, string>, p: Place): Option<string> {
    if p in files then Some(files[p]) else None
  }

  /** What a write leaves behind. */
  function FileAfter(before: Option<string>, manifest: string, w: Write): Option<string> {
    match w
    case Written => Some(manifest)
    case NotClosed => Some(manifest)
    case NotCreated => before
    case BrokenOff(count) => Some(Prefix(manifest, count))
  }

  /** The spec's own file after a call. */
  ghost function OwnAfter(files: map<Place, string>, own: Place, manifest: string, a: Answers): Option<string> {
    if !Cleans(files, own, a) || Cached(files, own, a) || a.unrendered then
      FileOf(files, own)
    else
      FileAfter(FileOf(files, own), manifest, a.write)
  }

  ghost function Returned(files: map<Place, string>, own: Place, manifest: string, a: Answers): Option<string> {
    if !Cleans(files, own, a) then None
    else if Cached(files, own, a) then Some(files[own])
    else if a.unrendered || a.write != Written then None
    else Some(manifest)
  }

  /** What cleaning removes: the stale files that come before every one that cannot be removed. */
  ghost predicate Removed(files: map<Place, string>, own: Place, a: Answers, p: Place) {
    p in files && Stale(p, own) && forall q | q in files && Stale(q, own) && q in a.stuck :: Before(p.name, q.name)
  }

  /** Exactly those files go, the own one aside. */
  ghost predicate Swept(before: map<Place, string>, after: map<Place, string>, own: Place, a: Answers) {
    && (forall p | p != own && p in after :: p in before && after[p] == before[p] && !Removed(before, own, a, p))
    && (forall p | p != own && p in before && !Removed(before, own, a, p) :: p in after)
  }

  ghost predicate Call(before: map<Place, string>, after: map<Place, string>, own: Place, manifest: string, a: Answers,
                       r: Option<string>) {
    && Swept(before, after, own, a)
    && FileOf(after, own) == OwnAfter(before, own, manifest, a)
    && r == Returned(before, own, manifest, a)
  }

  /** Where the walk is: the stale files that are left come after those that were removed, none of which resisted. */
  ghost predicate Walking(files: map<Place, string>, own: Place, a: Answers, todo: set<Place>) {
    && (forall p | p in todo :: p in files && Stale(p, own))
    && (forall p | p in files && Stale(p, own) && p !in todo :: p !in a.stuck)
    && (forall p, q | p in files && Stale(p, own) && p !in todo && q in todo :: Before(p.name, q.name))
  }

  /** The files when of the stale ones only those of `todo` are left. */
  function Remaining(files: map<Place, string>, own: Place, todo: set<Place>): map<Place, string> {
    map p | p in files && (Stale(p, own) ==> p in todo) :: files[p]
  }

  lemma WalkOn(files: map<Place, string>, own: Place, a: Answers, todo: set<Place>, p: Place)
    requires Walking(files, own, a, todo) && IsFirst(p, todo) && p !in a.stuck
    ensures Walking(files, own, a, todo - {p})
    ensures Remaining(files, own, todo) - {p} == Remaining(files, own, todo - {p})
  {
  }

  lemma FirstStuckStops(files: map<Place, string>, own: Place, a: Answers, todo: set<Place>, p: Place)
    requires Walking(files, own, a, todo) && IsFirst(p, todo) && p in a.stuck
    ensures forall q | q in files && Stale(q, own) :: Removed(files, own, a, q) <==> q !in todo
  {
    forall q | q in todo ensures !Removed(files, own, a, q) {
      BeforeIsTotal(q.name, p.name);
      assert !Before(q.name, p.name);
    }
  }

  lemma WalkStops(files: map<Place, string>, own: Place, a: Answers, todo: set<Place>, p: Place)
    requires Walking(files, own, a, todo) && IsFirst(p, todo) && p in a.stuck
    ensures Swept(files, Remaining(files, own, todo), own, a) && !Cleans(files, own, a)
    ensures FileOf(Remaining(files, own, todo), own) == FileOf(files, own)
  {
    FirstStuckStops(files, own, a, todo, p);
  }

  lemma WalkEnds(files: map<Place, string>, own: Place, a: Answers)
    requires Walking(files, own, a, {})
    ensures Swept(files, Remaining(files, own, {}), own, a) && Cleans(files, own, a)
    ensures FileOf(Remaining(files, own, {}), own) == FileOf(files, own)
  {
  }

  // ---------------------------------------------------------------- the calls

  class Files {
    var files: map<Place, string>

    constructor ()
      ensures files == map[]
    {
      files := map[];
    }

    /** Removes the stale files in the order of their names and stops at the first that cannot be removed. */
    method Clean(own: Place, a: Answers) returns (ok: bool)
      modifies this
      ensures ok <==> Cleans(old(files), own, a)
      ensures Swept(old(files), files, own, a) && FileOf(files, own) == FileOf(old(files), own)
    {
      var todo := set p | p in files && Stale(p, own);
      while todo != {}
        invariant files == Remaining(old(files), own, todo) && Walking(old(files), own, a, todo)
        decreases |todo|
      {
        ghost var first := FirstExists(todo);
        var p :| p in todo && IsFirst(p, todo);
        if p in a.stuck {
          WalkStops(old(files), own, a, todo, p);
          return false;
        }
        WalkOn(old(files), own, a, todo, p);
        files := files - {p};
        todo := todo - {p};
      }
      WalkEnds(old(files), own, a);
      ok := true;
    }

    /** Somebody else removes files. */
    method Lose(places: set<Place>)
      modifies this
      ensures files == old(files) - places
    {
      files := files - places;
    }

    method WriteToFile(own: Place, manifest: string, w: Write) returns (ok: bool)
      modifies this
      ensures ok <==> w == Written
      ensures FileOf(files, own) == FileAfter(FileOf(old(files), own), manifest, w)
      ensures forall p | p in files && p != own :: p in old(files) && files[p] == old(files)[p]
      ensures forall p | p in old(files) && p != own :: p in files
    {
      match w {
        case NotCreated =>
        case BrokenOff(count) =>
          files := files[own := Prefix(manifest, count)];
        case _ =>
          files := files[own := manifest];
      }
      ok := w == Written;
    }

    /** Cleans the directory, returns the spec's file if there is one, and otherwise renders and keeps the result. */
    method Render(own: Place, manifest: string, a: Answers) returns (r: Option<string>)
      modifies this
      ensures Call(old(files), files, own, manifest, a, r)
    {
      var clean := Clean(own, a);
      if !clean {
        return None;
      }
      if own in files && !a.unreadable {
        return Some(files[own]);
      }
      if a.unrendered {
        return None;
      }
      var written := WriteToFile(own, manifest, a.write);
      r := if written then Some(manifest) else None;
    }
  }

  // ---------------------------------------------------------------- what a call keeps

  /** Every file belonging to one of the specs holds what its spec renders to. */
  ghost predicate Faithful(files: map<Place, string>, base: string, render: Spec -> string, specs: set<Spec>) {
    forall s | s in specs && PlaceOf(base, s) in files :: files[PlaceOf(base, s)] == render(s)
  }

  /** Specs that share a key render the same. */
  ghost predicate KeysDetermine(render: Spec -> string, specs: set<Spec>) {
    forall s, t | s in specs && t in specs && MemoryKey(s) == MemoryKey(t) :: render(s) == render(t)
  }

  /** Flat names and values whose hashes do not collide are enough for the keys to determine what is rendered. */
  lemma NoCollisionsDetermine(render: Spec -> string, specs: set<Spec>)
    requires forall s | s in specs :: Free(s.name, '/')
    requires forall s, t | s in specs && t in specs && Hash(s.values) == Hash(t.values) :: s.values == t.values
    ensures KeysDetermine(render, specs)
  {
    forall s, t | s in specs && t in specs && MemoryKey(s) == MemoryKey(t) ensures s == t {
      SameKey(s, t);
      LastPart(s.path, t.path, s.name, t.name, '/');
    }
  }

  /** A call on faithful files returns what the renderer would, and keeps them faithful unless its own write broke off. */
  lemma CallIsFaithful(before: map<Place, string>, after: map<Place, string>, base: string, render: Spec -> string,
                       specs: set<Spec>, s: Spec, a: Answers, r: Option<string>)
    requires s in specs && KeysDetermine(render, specs) && Faithful(before, base, render, specs)
    requires Call(before, after, PlaceOf(base, s), render(s), a, r)
    ensures r.Some? ==> r.value == render(s)
    ensures r.Some? <==>
              && (forall p | p in before && p.root == PlaceOf(base, s).root && p.name != PlaceOf(base, s).name :: p !in a.stuck)
              && ((PlaceOf(base, s) in before && !a.unreadable) || (!a.unrendered && a.write == Written))
    ensures !a.write.BrokenOff? ==> Faithful(after, base, render, specs)
    ensures r.Some? ==> FileOf(after, PlaceOf(base, s)) == Some(render(s)) && forall p | p in after :: !Stale(p, PlaceOf(base, s))
  {
    var own := PlaceOf(base, s);
    if !a.write.BrokenOff? {
      assert FileOf(after, own) == FileOf(before, own) || FileOf(after, own) == Some(render(s));
      forall t | t in specs && PlaceOf(base, t) in after ensures after[PlaceOf(base, t)] == render(t) {
        if PlaceOf(base, t) == own {
          SamePlace(base, s, t);
          assert render(s) == render(t);
        }
      }
    }
  }

  /** A write that broke off is taken for the manifest by every later call: the renderer's text comes back if and only if
      nothing was cut off. */
  lemma BrokenWriteStays(f: map<Place, string>, g: map<Place, string>, h: map<Place, string>, own: Place, manifest: string,
                         a: Answers, b: Answers, r: Option<string>, r': Option<string>)
    requires Call(f, g, own, manifest, a, r) && Call(g, h, own, manifest, b, r')
    requires Cleans(f, own, a) && !Cached(f, own, a) && !a.unrendered && a.write.BrokenOff?
    requires !b.unreadable
    ensures r == None
    ensures r' == Some(Prefix(manifest, a.write.count)) && FileOf(h, own) == r'
    ensures r' == Some(manifest) <==> a.write.count >= |manifest|
  {
    assert FileOf(g, own) == Some(Prefix(manifest, a.write.count));
    assert Cleans(g, own, b);
    assert manifest[..|manifest|] == manifest;
    assert a.write.count < |manifest| ==> |Prefix(manifest, a.write.count)| < |manifest|;
  }
}

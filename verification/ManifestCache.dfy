/** The in-memory cache of parsed manifests over the disk cache, and rounds that change in place what they get from it. */
module ManifestCache {
  import opened CacheKeys
  import opened Converter
  import opened DiskCache
  import opened Identity
  import opened Model
  import opened Objects
  import opened Transforms

  /** A parsed manifest by value, and as the objects a caller gets; blobs are never written after parsing. */
  datatype Manifest = Manifest(items: seq<Content>, blobs: seq<string>)
  datatype ManifestResources = ManifestResources(items: seq<Unstructured>, blobs: seq<string>)

  /** Where files go, what a spec renders to and what a text parses to. */
  datatype Setup = Setup(base: string, render: Spec -> string, parse: string -> Option<Manifest>)

  ghost function Value(r: ManifestResources): Manifest
    reads r.items
  {
    Manifest(Contents(r.items), r.blobs)
  }

  /** What parsing without any cache gives. */
  function Uncached(u: Setup, s: Spec): Option<Manifest> {
    u.parse(u.render(s))
  }

  /** A renderer behind the disk cache: its file there, and what it renders. */
  datatype Renderer = Renderer(own: Place, manifest: string)

  function RendererOf(u: Setup, s: Spec): Renderer {
    Renderer(PlaceOf(u.base, s), u.render(s))
  }

  ghost predicate RendererCalled(before: map<Place, string>, after: map<Place, string>, r: Renderer, a: Answers) {
    Call(before, after, r.own, r.manifest, a, Returned(before, r.own, r.manifest, a))
  }

  /** What a miss parses, given the files of the disk cache. */
  ghost function Parsed(parse: string -> Option<Manifest>, files: map<Place, string>, r: Renderer, a: Answers)
      : Option<Manifest> {
    var text := Returned(files, r.own, r.manifest, a);
    if text.None? then None else parse(text.value)
  }

  method Allocate(m: Manifest) returns (r: ManifestResources)
    ensures fresh(r.items) && Distinct(r.items) && Value(r) == m
  {
    var items: seq<Unstructured> := [];
    for n := 0 to |m.items|
      invariant |items| == n && fresh(items) && Distinct(items)
      invariant forall i | 0 <= i < n :: items[i].content == m.items[i]
    {
      var obj := new Unstructured(m.items[n]);
      items := items + [obj];
    }
    r := ManifestResources(items, m.blobs);
    assert Contents(items) == m.items;
  }

  method DeepCopies(r: ManifestResources) returns (copied: ManifestResources)
    ensures fresh(copied.items) && Distinct(copied.items) && Value(copied) == Value(r)
  {
    var items: seq<Unstructured> := [];
    for n := 0 to |r.items|
      invariant |items| == n && fresh(items) && Distinct(items)
      invariant forall i | 0 <= i < n :: items[i].content == r.items[i].content
    {
      var obj := r.items[n].DeepCopy();
      items := items + [obj];
    }
    copied := ManifestResources(items, r.blobs);
    assert Contents(items) == Contents(r.items);
  }

  class InMemoryManifestCache {
    const setup: Setup
    const disk: Files
    var entries: map<string, ManifestResources>

    constructor (setup: Setup, disk: Files)
      ensures this.setup == setup && this.disk == disk && entries == map[]
    {
      this.setup, this.disk, entries := setup, disk, map[];
    }

    /** The cached objects. */
    ghost function Held(): set<Unstructured>
      reads this
    {
      set k, obj | k in entries && obj in entries[k].items :: obj
    }

    ghost function At(key: string): Manifest
      requires key in entries
      reads this, Held()
    {
      assert forall obj | obj in entries[key].items :: obj in Held();
      Value(entries[key])
    }

    /** The cached manifests by value. */
    ghost function Entries(): (es: map<string, Manifest>)
      reads this, Held()
    {
      map k | k in entries :: At(k)
    }

    twostate lemma EntryStays(key: string)
      requires key in old(entries) && unchanged(this) && forall obj | obj in old(Held()) :: unchanged(obj)
      ensures At(key) == old(At(key))
    {
      var items := old(entries[key].items);
      forall i | 0 <= i < |items| ensures items[i].content == old(items[i].content) {
        assert old(key in entries && items[i] in entries[key].items);
        assert items[i] in old(Held());
      }
      assert Contents(items) == old(Contents(items));
    }

    /** Changing objects that are not cached changes no entry. */
    twostate lemma EntriesStay()
      requires unchanged(this) && forall obj | obj in old(Held()) :: unchanged(obj)
      ensures Entries() == old(Entries())
    {
      forall k | k in entries ensures At(k) == old(At(k)) {
        EntryStays(k);
      }
    }

    /** A hit: copies of the cached objects, which nobody else has. */
    method Look(key: string) returns (r: Option<ManifestResources>)
      ensures r.Some? <==> key in Entries()
      ensures r.Some? ==> fresh(r.value.items) && Distinct(r.value.items) && forall obj | obj in r.value.items :: obj !in Held()
      ensures r.Some? ==> Value(r.value) == Entries()[key]
      ensures Entries() == old(Entries())
    {
      if key !in entries {
        return None;
      }
      var copied := DeepCopies(entries[key]);
      r := Some(copied);
    }

    /** A miss: renders and parses, keeps the result, and returns copies of it. Somebody else may have filled the same entry in
        the meantime. */
    method Fill(key: string, renderer: Renderer, a: Answers) returns (r: Option<ManifestResources>)
      modifies this, disk
      ensures RendererCalled(old(disk.files), disk.files, renderer, a)
      ensures r.Some? ==> fresh(r.value.items) && Distinct(r.value.items) && forall obj | obj in r.value.items :: obj !in Held()
      ensures Parsed(setup.parse, old(disk.files), renderer, a) == if r.Some? then Some(Value(r.value)) else None
      ensures forall obj | obj in Held() :: obj in old(Held()) || fresh(obj)
      ensures Entries() == if r.Some? then old(Entries())[key := Value(r.value)] else old(Entries())
    {
      var m := RenderAndParse(renderer, a);
      if m.None? {
        return None;
      }
      var copied := Keep(key, m.value);
      r := Some(copied);
    }

    method RenderAndParse(renderer: Renderer, a: Answers) returns (m: Option<Manifest>)
      modifies disk
      ensures RendererCalled(old(disk.files), disk.files, renderer, a)
      ensures m == Parsed(setup.parse, old(disk.files), renderer, a)
    {
      var text := disk.Render(renderer.own, renderer.manifest, a);
      m := if text.None? then None else setup.parse(text.value);
    }

    method Keep(key: string, m: Manifest) returns (r: ManifestResources)
      modifies this
      ensures fresh(r.items) && Distinct(r.items) && Value(r) == m && forall obj | obj in r.items :: obj !in Held()
      ensures forall obj | obj in Held() :: obj in old(Held()) || fresh(obj)
      ensures Entries() == old(Entries())[key := m]
    {
      var parsed := Allocate(m);
      Put(key, parsed);
      r := DeepCopies(parsed);
    }

    method Put(key: string, parsed: ManifestResources)
      modifies this
      ensures Held() <= old(Held()) + (set obj | obj in parsed.items)
      ensures Entries() == old(Entries())[key := Value(parsed)]
    {
      entries := entries[key := parsed];
    }

    /** Returns copies of the cached objects, after rendering, parsing and caching them if they were not there. What is
        returned is new: nobody who changes it can change what is cached. */
    method Parse(key: string, renderer: Renderer, a: Answers) returns (r: Option<ManifestResources>)
      modifies this, disk
      ensures r.Some? ==> fresh(r.value.items) && Distinct(r.value.items) && forall obj | obj in r.value.items :: obj !in Held()
      ensures key in old(Entries()) ==>
                && r.Some? && Value(r.value) == old(Entries())[key]
                && Entries() == old(Entries()) && disk.files == old(disk.files)
      ensures key !in old(Entries()) ==>
                && RendererCalled(old(disk.files), disk.files, renderer, a)
                && Parsed(setup.parse, old(disk.files), renderer, a) == (if r.Some? then Some(Value(r.value)) else None)
                && Entries() == if r.Some? then old(Entries())[key := Value(r.value)] else old(Entries())
    {
      r := Look(key);
      if r.None? {
        r := Fill(key, renderer, a);
      }
    }

    /** Entries expire. */
    method Expire(keys: set<string>)
      modifies this
      ensures Entries() == old(Entries()) - keys && Held() <= old(Held())
    {
      entries := entries - keys;
      assert forall k | k in entries :: At(k) == old(At(k));
    }
  }

  /** Nothing fails that the cache itself does. */
  predicate Calm(a: Answers) {
    a.stuck == {} && !a.unrendered && a.write == Written
  }

  // ---------------------------------------------------------------- rounds

  function AllTransformed(o: Owner, cs: seq<Content>): (ds: seq<Content>)
    ensures |ds| == |cs|
  {
    seq(|cs|, i requires 0 <= i < |cs| => TransformedBy(DEFAULTS, o, cs[i]))
  }

  /** One rendering of a target: for whom, against which API server, into which namespace. */
  datatype Job = Job(spec: Spec, owner: Owner, mapper: Mapper, default: string)

  ghost predicate Convertible(m: Mapper, cs: seq<Content>) {
    forall i | 0 <= i < |cs| :: !m.Lookup(cs[i].gvk).MappingError?
  }

  /** What the transforms and the converter make of parsed objects. */
  ghost function TargetOf(j: Job, cs: seq<Content>): Option<seq<Resource>> {
    if Convertible(j.mapper, cs) then Some(Tracked(j.mapper, j.default, AllTransformed(j.owner, cs))) else None
  }

  /** The target of a job without any cache. */
  ghost function Reference(u: Setup, j: Job): Option<seq<Resource>> {
    match Uncached(u, j.spec)
    case None => None
    case Some(m) => TargetOf(j, m.items)
  }

  /** Transforms in place and converts in place. */
  method Finish(j: Job, items: seq<Unstructured>) returns (target: Option<seq<Resource>>)
    requires Distinct(items)
    modifies items
    ensures target == TargetOf(j, old(Contents(items)))
  {
    ghost var cs := Contents(items);
    ApplyAll(DEFAULTS, j.owner, items);
    forall i | 0 <= i < |cs| ensures items[i].content.gvk == cs[i].gvk {
      TransformsKeepIdentity(DEFAULTS, j.owner, cs[i]);
    }
    assert Contents(items) == AllTransformed(j.owner, cs);
    var infos, ok := UnstructuredToInfos(j.mapper, items, j.default);
    if !ok {
      return None;
    }
    var rs := InfosToResources(infos);
    assert rs == Tracked(j.mapper, j.default, AllTransformed(j.owner, cs));
    target := Some(rs);
  }
}

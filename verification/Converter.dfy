/** The converters between manifest objects, resource infos and tracked resources, and the normalisation of namespaces. */
module Converter {
  import opened Identity
  import opened Model
  import opened Objects
  import P = Protocol

  // ---------------------------------------------------------------- mappings

  datatype Mapping = Mapping(gvk: GroupVersionKind, namespaced: bool)

  datatype Answer = Mapped(mapping: Mapping) | NoMatch | MappingError(text: string)

  /** How the client library answers whether an object without a mapping is namespaced: never, or by its own namespace. */
  datatype Unmapped = NeverNamespaced | ByOwnNamespace

  /** What the API server's discovery knows, the groups that have typed clients, and the rule for what discovery does not
      know. */
  datatype Mapper = Mapper(known: map<GroupVersionKind, Answer>, registered: set<string>, unmapped: Unmapped) {
    function Lookup(gvk: GroupVersionKind): Answer {
      if gvk in known then known[gvk] else NoMatch
    }
  }

  /** Asking for what was answered gives the same answer. */
  ghost predicate Stable(m: Mapper) {
    forall gvk | m.Lookup(gvk).Mapped? :: m.Lookup(m.Lookup(gvk).mapping.gvk) == m.Lookup(gvk)
  }

  class Info {
    var ns: string
    const name: string
    const item: Unstructured
    const mapping: Option<Mapping>

    constructor (ns: string, name: string, item: Unstructured, mapping: Option<Mapping>)
      ensures this.ns == ns && this.name == name && this.item == item && this.mapping == mapping
    {
      this.ns, this.name, this.item, this.mapping := ns, name, item, mapping;
    }
  }

  // ---------------------------------------------------------------- what the converters compute

  /** An info by value. */
  datatype View = View(ns: string, name: string, gvk: GroupVersionKind, mapping: Option<Mapping>)

  function MappingOf(m: Mapper, gvk: GroupVersionKind): Option<Mapping> {
    var a := m.Lookup(gvk);
    if a.Mapped? then Some(a.mapping) else None
  }

  /** An object that goes through an untyped client takes over the kind of its mapping. */
  function KindOnceMapped(m: Mapper, gvk: GroupVersionKind): GroupVersionKind {
    var a := m.Lookup(gvk);
    if a.Mapped? && a.mapping.gvk.group !in m.registered then a.mapping.gvk else gvk
  }

  predicate Namespaced(rule: Unmapped, mapping: Option<Mapping>, ns: string) {
    if mapping.Some? then mapping.value.namespaced else rule == ByOwnNamespace && ns != ""
  }

  /** What becomes of the namespaces of an info and of its object: something namespaced gets the default in both where either
      is empty, anything else loses both. */
  function NormalNamespaces(rule: Unmapped, mapping: Option<Mapping>, info: string, obj: string, default: string)
      : (string, string) {
    if !Namespaced(rule, mapping, info) then ("", "")
    else if info == "" || obj == "" then (default, default)
    else (info, obj)
  }

  function TargetView(m: Mapper, default: string, c: Content): View {
    var mapping := MappingOf(m, c.gvk);
    View(NormalNamespaces(m.unmapped, mapping, c.ns, c.ns, default).0, c.name, KindOnceMapped(m, c.gvk), mapping)
  }

  function ResourceOfView(v: View): Resource {
    Resource(v.name, v.ns, if v.mapping.Some? then v.mapping.value.gvk else v.gvk)
  }

  /** The info of a tracked resource, which is not normalised. */
  function CurrentView(m: Mapper, r: Resource): Option<View> {
    match m.Lookup(r.gvk)
    case Mapped(mapping) => Some(View(r.ns, r.name, KindOnceMapped(m, r.gvk), Some(mapping)))
    case _ => None
  }

  /** The tracked form of a target whose objects have the given contents. */
  function Tracked(m: Mapper, default: string, cs: seq<Content>): (rs: seq<Resource>)
    ensures |rs| == |cs|
  {
    seq(|cs|, i requires 0 <= i < |cs| => ResourceOfView(TargetView(m, default, cs[i])))
  }

  ghost predicate FullyMapped(m: Mapper, cs: seq<Content>) {
    forall i | 0 <= i < |cs| :: m.Lookup(cs[i].gvk).Mapped?
  }

  ghost predicate Readable(m: Mapper, rs: seq<Resource>) {
    forall i | 0 <= i < |rs| :: CurrentView(m, rs[i]).Some?
  }

  ghost function ReadBack(m: Mapper, rs: seq<Resource>): (current: seq<Resource>)
    requires Readable(m, rs)
    ensures |current| == |rs|
  {
    seq(|rs|, i requires 0 <= i < |rs| => ResourceOfView(CurrentView(m, rs[i]).value))
  }

  ghost function ViewOf(info: Info): View
    reads info, info.item
  {
    View(info.ns, info.name, info.item.content.gvk, info.mapping)
  }

  ghost predicate Fits(info: Info)
    reads info, info.item
  {
    info.ns == info.item.content.ns && info.name == info.item.content.name
  }

  // ---------------------------------------------------------------- the converters

  method ResourceInfo(m: Mapper, obj: Unstructured) returns (info: Info, answer: Answer)
    modifies obj
    ensures answer == m.Lookup(old(obj.content).gvk)
    ensures obj.content == old(obj.content).(gvk := KindOnceMapped(m, old(obj.content).gvk))
    ensures obj.content.gvk == if answer.Mapped? && answer.mapping.gvk.group !in m.registered then answer.mapping.gvk
                               else old(obj.content).gvk
    ensures fresh(info) && info.item == obj && Fits(info)
    ensures info.mapping == MappingOf(m, old(obj.content).gvk)
  {
    answer := m.Lookup(obj.content.gvk);
    if answer.Mapped? && answer.mapping.gvk.group !in m.registered {
      obj.SetGroupVersionKind(answer.mapping.gvk);
    }
    info := new Info(obj.content.ns, obj.content.name, obj, if answer.Mapped? then Some(answer.mapping) else None);
  }

  ghost predicate Normalised(rule: Unmapped, mapping: Option<Mapping>, ns: string, c: Content, default: string,
                             ns': string, c': Content) {
    var normal := NormalNamespaces(rule, mapping, ns, c.ns, default);
    ns' == normal.0 && c' == c.(ns := normal.1)
  }

  /** Rewrites namespaces in place, in the infos and in the objects they point to. */
  method NormaliseNamespaces(rule: Unmapped, infos: seq<Info>, default: string)
    requires forall i, j | 0 <= i < j < |infos| :: infos[i] != infos[j] && infos[i].item != infos[j].item
    modifies infos, set i | 0 <= i < |infos| :: infos[i].item
    ensures forall i | 0 <= i < |infos| ::
              Normalised(rule, infos[i].mapping, old(infos[i].ns), old(infos[i].item.content), default,
                         infos[i].ns, infos[i].item.content)
    ensures forall i | 0 <= i < |infos| ::
              var ns, obj := old(infos[i].ns), old(infos[i].item.content.ns);
              && (!Namespaced(rule, infos[i].mapping, ns) ==> infos[i].ns == infos[i].item.content.ns == "")
              && (Namespaced(rule, infos[i].mapping, ns) && (ns == "" || obj == "") ==>
                    infos[i].ns == infos[i].item.content.ns == default)
              && (Namespaced(rule, infos[i].mapping, ns) && ns != "" && obj != "" ==>
                    infos[i].ns == ns && infos[i].item.content.ns == obj)
  {
    for n := 0 to |infos|
      invariant forall i | 0 <= i < n ::
                  Normalised(rule, infos[i].mapping, old(infos[i].ns), old(infos[i].item.content), default,
                             infos[i].ns, infos[i].item.content)
      invariant forall i | n <= i < |infos| ::
                  infos[i].ns == old(infos[i].ns) && infos[i].item.content == old(infos[i].item.content)
    {
      var info := infos[n];
      if Namespaced(rule, info.mapping, info.ns) {
        if info.ns == "" || info.item.content.ns == "" {
          info.ns := default;
          info.item.SetNamespace(default);
        }
      } else if info.ns != "" || info.item.content.ns != "" {
        info.ns := "";
        info.item.SetNamespace("");
      }
    }
  }

  /** Target infos: an object without a mapping stays in the list, any other mapping error fails the whole conversion. */
  method UnstructuredToInfos(m: Mapper, objs: seq<Unstructured>, default: string) returns (infos: seq<Info>, ok: bool)
    requires Distinct(objs)
    modifies objs
    ensures ok <==> forall i | 0 <= i < |objs| :: !m.Lookup(old(objs[i].content).gvk).MappingError?
    ensures ok ==> |infos| == |objs|
    ensures ok ==> forall i | 0 <= i < |objs| ::
              && fresh(infos[i]) && infos[i].item == objs[i]
              && ViewOf(infos[i]) == TargetView(m, default, old(objs[i].content))
              && objs[i].content == old(objs[i].content).(ns := infos[i].ns, gvk := ViewOf(infos[i]).gvk)
    ensures !ok ==> forall i | 0 <= i < |objs| ::
              objs[i].content == old(objs[i].content).(gvk := KindOnceMapped(m, old(objs[i].content).gvk))
  {
    infos, ok := [], true;
    for n := 0 to |objs|
      invariant ok <==> forall i | 0 <= i < n :: !m.Lookup(old(objs[i].content).gvk).MappingError?
      invariant forall i | 0 <= i < n ::
                  objs[i].content == old(objs[i].content).(gvk := KindOnceMapped(m, old(objs[i].content).gvk))
      invariant forall i | n <= i < |objs| :: objs[i].content == old(objs[i].content)
      invariant ok ==> |infos| == n
      invariant forall i | 0 <= i < |infos| :: fresh(infos[i])
      invariant ok ==> forall i | 0 <= i < |infos| ::
                  && infos[i].item == objs[i] && Fits(infos[i])
                  && infos[i].mapping == MappingOf(m, old(objs[i].content).gvk)
      invariant forall i, j | 0 <= i < j < |infos| :: infos[i] != infos[j]
    {
      var info, answer := ResourceInfo(m, objs[n]);
      if answer.MappingError? {
        ok := false;
      } else {
        infos := infos + [info];
      }
    }
    if ok {
      NormaliseNamespaces(m.unmapped, infos, default);
    }
  }

  method InfosToResources(infos: seq<Info>) returns (rs: seq<Resource>)
    ensures |rs| == |infos|
    ensures forall i | 0 <= i < |infos| :: rs[i] == ResourceOfView(ViewOf(infos[i]))
  {
    rs := [];
    for n := 0 to |infos|
      invariant |rs| == n
      invariant forall i | 0 <= i < n :: rs[i] == ResourceOfView(ViewOf(infos[i]))
    {
      var info := infos[n];
      var gvk := if info.mapping.Some? then info.mapping.value.gvk else info.item.content.gvk;
      rs := rs + [Resource(info.name, info.ns, gvk)];
    }
  }

  /** Current infos: a resource without a mapping is an error here. */
  method ResourcesToInfos(m: Mapper, rs: seq<Resource>) returns (infos: seq<Info>, ok: bool)
    ensures ok <==> Readable(m, rs)
    ensures ok ==> |infos| == |rs|
    ensures ok ==> forall i | 0 <= i < |rs| :: fresh(infos[i]) && Some(ViewOf(infos[i])) == CurrentView(m, rs[i])
  {
    infos, ok := [], true;
    for n := 0 to |rs|
      invariant ok <==> forall i | 0 <= i < n :: CurrentView(m, rs[i]).Some?
      invariant ok ==> |infos| == n
      invariant ok ==> forall i | 0 <= i < n :: fresh(infos[i]) && Some(ViewOf(infos[i])) == CurrentView(m, rs[i])
    {
      var obj := new Unstructured(Content(rs[n].name, rs[n].ns, rs[n].gvk, map[], map[], ""));
      var info, answer := ResourceInfo(m, obj);
      if answer.Mapped? {
        infos := infos + [info];
      } else {
        ok := false;
      }
    }
  }

  /** What a round compares: the rendered target against the list in the status, both as resources. */
  method RenderResources(m: Mapper, objs: seq<Unstructured>, status: seq<Resource>, default: string)
      returns (target: seq<Resource>, current: seq<Resource>, ok: bool)
    requires Distinct(objs)
    modifies objs
    ensures ok <==> Readable(m, status) && forall i | 0 <= i < |objs| :: !m.Lookup(old(objs[i].content).gvk).MappingError?
    ensures ok ==> target == Tracked(m, default, old(Contents(objs))) && current == ReadBack(m, status)
  {
    target, current := [], [];
    var infos, rendered := UnstructuredToInfos(m, objs, default);
    if !rendered {
      return target, current, false;
    }
    target := InfosToResources(infos);
    var back, read := ResourcesToInfos(m, status);
    if !read {
      return target, current, false;
    }
    current := InfosToResources(back);
    ok := true;
  }

  // ---------------------------------------------------------------- what becomes of names, kinds and namespaces

  /** A namespaced info keeps both namespaces if both are there and gets the default for both if one is missing; anything else
      ends without. */
  lemma NamespacesMeaning(rule: Unmapped, mapping: Option<Mapping>, info: string, obj: string, default: string)
    ensures var namespaced := if mapping.Some? then mapping.value.namespaced else rule == ByOwnNamespace && info != "";
            var (info', obj') := NormalNamespaces(rule, mapping, info, obj, default);
            && (namespaced && info != "" && obj != "" ==> info' == info && obj' == obj)
            && (namespaced && (info == "" || obj == "") ==> info' == default && obj' == default)
            && (!namespaced ==> info' == "" && obj' == "")
  {
  }

  /** Normalising what is normalised changes nothing. */
  lemma NormalisingTwice(rule: Unmapped, mapping: Option<Mapping>, info: string, obj: string, default: string)
    ensures var (info', obj') := NormalNamespaces(rule, mapping, info, obj, default);
            NormalNamespaces(rule, mapping, info', obj', default) == (info', obj')
  {
  }

  /** The resource that is tracked for an object: its name; the kind that discovery knows, if it does; its own namespace, the
      default one, or none. */
  lemma TrackedMeaning(m: Mapper, default: string, cs: seq<Content>, i: nat)
    requires i < |cs|
    ensures var r, c := Tracked(m, default, cs)[i], cs[i];
            var namespaced := match m.Lookup(c.gvk) {
              case Mapped(mapping) => mapping.namespaced
              case _ => m.unmapped == ByOwnNamespace && c.ns != ""
            };
            && r.name == c.name
            && (m.Lookup(c.gvk).Mapped? ==> r.gvk == m.Lookup(c.gvk).mapping.gvk)
            && (!m.Lookup(c.gvk).Mapped? ==> r.gvk == c.gvk)
            && (namespaced && c.ns != "" ==> r.ns == c.ns)
            && (namespaced && c.ns == "" ==> r.ns == default)
            && (!namespaced ==> r.ns == "")
  {
    NamespacesMeaning(m.unmapped, MappingOf(m, cs[i].gvk), cs[i].ns, cs[i].ns, default);
  }

  /** A tracked resource is read back under its own name and namespace, with the kind that discovery knows now. */
  lemma ReadBackMeaning(m: Mapper, rs: seq<Resource>)
    ensures Readable(m, rs) <==> forall i | 0 <= i < |rs| :: m.Lookup(rs[i].gvk).Mapped?
    ensures Readable(m, rs) ==>
              forall i | 0 <= i < |rs| ::
                ReadBack(m, rs)[i] == Resource(rs[i].name, rs[i].ns, m.Lookup(rs[i].gvk).mapping.gvk)
  {
    if forall i | 0 <= i < |rs| :: m.Lookup(rs[i].gvk).Mapped? {
      assert forall i | 0 <= i < |rs| :: CurrentView(m, rs[i]).Some?;
    } else {
      var i :| 0 <= i < |rs| && !m.Lookup(rs[i].gvk).Mapped?;
      assert CurrentView(m, rs[i]).None?;
    }
  }

  // ---------------------------------------------------------------- a stable target prunes nothing

  /** A target resource that is mapped comes back from the tracked list exactly as it was tracked, although the way back does
      not normalise; one that is not mapped does not come back at all. */
  lemma TrackedComesBack(m: Mapper, default: string, c: Content)
    requires Stable(m)
    ensures var r := ResourceOfView(TargetView(m, default, c));
            if m.Lookup(c.gvk).Mapped? then
              CurrentView(m, r).Some? && ResourceOfView(CurrentView(m, r).value) == r
            else
              CurrentView(m, r) == None
  {
  }

  /** The tracked list of a target can be read back if and only if the target was fully mapped. */
  lemma ReadableIffMapped(m: Mapper, default: string, cs: seq<Content>)
    requires Stable(m)
    ensures Readable(m, Tracked(m, default, cs)) <==> FullyMapped(m, cs)
  {
    forall i | 0 <= i < |cs| {
      TrackedComesBack(m, default, cs[i]);
    }
    if Readable(m, Tracked(m, default, cs)) {
      forall i | 0 <= i < |cs| ensures m.Lookup(cs[i].gvk).Mapped? {
        assert CurrentView(m, Tracked(m, default, cs)[i]).Some?;
      }
    }
  }

  /** One sync and the next round with the same target: what the status names is the target, element by element, so that
      nothing is dropped and no difference is seen. */
  lemma StableTargetPrunesNothing(m: Mapper, default: string, cs: seq<Content>, matcher: Matcher)
    requires Stable(m) && FullyMapped(m, cs)
    ensures Readable(m, Tracked(m, default, cs))
    ensures var rs := Tracked(m, default, cs);
            && ReadBack(m, rs) == rs
            && P.Dropped(matcher, ReadBack(m, rs), rs) == {}
            && DiffOf(ReadBack(m, rs), rs) == []
  {
    var rs := Tracked(m, default, cs);
    ReadableIffMapped(m, default, cs);
    forall i | 0 <= i < |rs| ensures ReadBack(m, rs)[i] == rs[i] {
      TrackedComesBack(m, default, cs[i]);
    }
    assert ReadBack(m, rs) == rs;
    DiffEmptyIffCovered(rs, rs);
  }

  /** The namespace that an object is given while its kind is unknown is the one it is given once the kind is known. */
  predicate StaysPut(rule: Unmapped, namespaced: bool, ns: string, default: string) {
    match rule
    case NeverNamespaced => !namespaced || (ns == "" && default == "")
    case ByOwnNamespace => if namespaced then ns != "" || default == "" else ns == ""
  }

  lemma OneDropped(m: Matcher, a: Resource, b: Resource)
    ensures Keys([a]) == {a.Key()}
    ensures P.Dropped(m, [a], [b]) == if a.MatchKey(m) == b.MatchKey(m) then {} else {a.Key()}
  {
    assert a in [a] && MatchKeys(m, [b]) == {b.MatchKey(m)} by {
      assert b in [b];
    }
  }

  /** An object that is synced while its kind is unknown and read back once the kind is known is the resource that the manifest
      then names, or else is pruned although the manifest did not change: the exact condition, for every matching rule, every
      mapping and either rule of the client library. */
  lemma UnmappedMovesIff(before: Mapper, after: Mapper, default: string, c: Content, matcher: Matcher)
    requires before.Lookup(c.gvk) == NoMatch && after.Lookup(c.gvk).Mapped?
    ensures var was, now := Tracked(before, default, [c]), Tracked(after, default, [c]);
            var stays := StaysPut(before.unmapped, after.Lookup(c.gvk).mapping.namespaced, c.ns, default);
            && Readable(after, was)
            && P.Dropped(matcher, ReadBack(after, was), now) == (if stays then {} else Keys(ReadBack(after, was)))
            && Keys(ReadBack(after, was)) != {}
            && (stays <==> ReadBack(after, was) == now)
  {
    var was, now := Tracked(before, default, [c]), Tracked(after, default, [c]);
    var mapping := after.Lookup(c.gvk).mapping;
    var ns := if before.unmapped == ByOwnNamespace then c.ns else "";
    var ns' := if !mapping.namespaced then "" else if c.ns == "" then default else c.ns;
    var stays := StaysPut(before.unmapped, mapping.namespaced, c.ns, default);
    assert was == [Resource(c.name, ns, c.gvk)];
    assert now == [Resource(c.name, ns', mapping.gvk)];
    var back := ReadBack(after, was);
    assert back == [Resource(c.name, ns, mapping.gvk)];
    OneDropped(matcher, back[0], now[0]);
    assert stays <==> ns == ns' by {
      assert stays == StaysPut(before.unmapped, mapping.namespaced, c.ns, default);
    }
  }
}

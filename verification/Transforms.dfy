/** The default transforms, which write labels and annotations into parsed objects in place. */
module Transforms {
  import opened Objects

  /** The object whose manifest is rendered. */
  datatype Owner = Owner(component: string, ns: string, name: string)

  datatype Transform = Disclaimer | KymaComponent | ManagedByDeclarativeV2 | WatchedByOwnedBy

  const DEFAULTS := [Disclaimer, KymaComponent, ManagedByDeclarativeV2, WatchedByOwnedBy]

  function Labels(t: Transform, o: Owner): map<Tag, Mark> {
    match t
    case Disclaimer => map[]
    case KymaComponent => map[Component := Text(o.component), PartOf := Kyma]
    case ManagedByDeclarativeV2 => map[ManagedBy := DeclarativeV2]
    case WatchedByOwnedBy => map[WatchedBy := ModuleManager, OwnedBy := OwnerName(o.ns, o.name)]
  }

  function Annotations(t: Transform): map<Tag, Mark> {
    if t == Disclaimer then map[ManagedByReconcilerDisclaimer := DoNotEdit] else map[]
  }

  function Transformed(t: Transform, o: Owner, c: Content): Content {
    c.(labels := c.labels + Labels(t, o), annotations := c.annotations + Annotations(t))
  }

  function TransformedBy(ts: seq<Transform>, o: Owner, c: Content): Content {
    if ts == [] then c else TransformedBy(ts[1..], o, Transformed(ts[0], o, c))
  }

  /** Each transform takes a map of the object, assigns its keys there and sets the map again. */
  method ApplyTo(t: Transform, o: Owner, obj: Unstructured)
    modifies obj
    ensures obj.content == Transformed(t, o, old(obj.content))
  {
    TransformWrites(o, obj.content);
    match t
    case Disclaimer =>
      var annotations := obj.content.annotations;
      annotations := annotations[ManagedByReconcilerDisclaimer := DoNotEdit];
      obj.SetAnnotations(annotations);
    case KymaComponent =>
      var labels := obj.content.labels;
      labels := labels[Component := Text(o.component)];
      labels := labels[PartOf := Kyma];
      obj.SetLabels(labels);
    case ManagedByDeclarativeV2 =>
      var labels := obj.content.labels;
      labels := labels[ManagedBy := DeclarativeV2];
      obj.SetLabels(labels);
    case WatchedByOwnedBy =>
      var labels := obj.content.labels;
      labels := labels[WatchedBy := ModuleManager];
      labels := labels[OwnedBy := OwnerName(o.ns, o.name)];
      obj.SetLabels(labels);
  }

  method Apply(t: Transform, o: Owner, objs: seq<Unstructured>)
    requires Distinct(objs)
    modifies objs
    ensures forall i | 0 <= i < |objs| :: objs[i].content == Transformed(t, o, old(objs[i].content))
  {
    for n := 0 to |objs|
      invariant forall i | 0 <= i < n :: objs[i].content == Transformed(t, o, old(objs[i].content))
      invariant forall i | n <= i < |objs| :: objs[i].content == old(objs[i].content)
    {
      ApplyTo(t, o, objs[n]);
    }
  }

  lemma {:induction false} TransformedByConcat(ts: seq<Transform>, t: Transform, o: Owner, c: Content)
    ensures TransformedBy(ts + [t], o, c) == Transformed(t, o, TransformedBy(ts, o, c))
    decreases |ts|
  {
    if ts == [] {
      assert ts + [t] == [t] && [t][1..] == [];
    } else {
      TransformedByConcat(ts[1..], t, o, Transformed(ts[0], o, c));
      assert (ts + [t])[1..] == ts[1..] + [t];
    }
  }

  method ApplyAll(ts: seq<Transform>, o: Owner, objs: seq<Unstructured>)
    requires Distinct(objs)
    modifies objs
    ensures forall i | 0 <= i < |objs| :: objs[i].content == TransformedBy(ts, o, old(objs[i].content))
  {
    for n := 0 to |ts|
      invariant forall i | 0 <= i < |objs| :: objs[i].content == TransformedBy(ts[..n], o, old(objs[i].content))
    {
      assert ts[..n + 1] == ts[..n] + [ts[n]];
      Apply(ts[n], o, objs);
      forall i | 0 <= i < |objs| ensures objs[i].content == TransformedBy(ts[..n + 1], o, old(objs[i].content)) {
        TransformedByConcat(ts[..n], ts[n], o, old(objs[i].content));
      }
    }
    assert ts[..|ts|] == ts;
  }

  /** Transforms never touch what names an object, nor what they do not label. */
  lemma {:induction false} TransformsKeepIdentity(ts: seq<Transform>, o: Owner, c: Content)
    ensures var d := TransformedBy(ts, o, c);
            d.name == c.name && d.ns == c.ns && d.gvk == c.gvk && d.body == c.body
    ensures forall text | Other(text) in c.labels ::
              Other(text) in TransformedBy(ts, o, c).labels && TransformedBy(ts, o, c).labels[Other(text)] == c.labels[Other(text)]
    decreases |ts|
  {
    if ts != [] {
      TransformsKeepIdentity(ts[1..], o, Transformed(ts[0], o, c));
    }
  }

  lemma FirstTransform(t: Transform, ts: seq<Transform>, o: Owner, c: Content)
    ensures TransformedBy([t] + ts, o, c) == TransformedBy(ts, o, Transformed(t, o, c))
  {
    assert ([t] + ts)[1..] == ts;
  }

  lemma DefaultsInTurn(o: Owner, c: Content)
    ensures TransformedBy(DEFAULTS, o, c)
            == Transformed(WatchedByOwnedBy, o,
                 Transformed(ManagedByDeclarativeV2, o, Transformed(KymaComponent, o, Transformed(Disclaimer, o, c))))
  {
    var c1 := Transformed(Disclaimer, o, c);
    var c2 := Transformed(KymaComponent, o, c1);
    var c3 := Transformed(ManagedByDeclarativeV2, o, c2);
    FirstTransform(Disclaimer, [KymaComponent, ManagedByDeclarativeV2, WatchedByOwnedBy], o, c);
    FirstTransform(KymaComponent, [ManagedByDeclarativeV2, WatchedByOwnedBy], o, c1);
    FirstTransform(ManagedByDeclarativeV2, [WatchedByOwnedBy], o, c2);
    FirstTransform(WatchedByOwnedBy, [], o, c3);
  }

  /** What each transform writes. */
  lemma TransformWrites(o: Owner, c: Content)
    ensures Transformed(Disclaimer, o, c) == c.(annotations := c.annotations[ManagedByReconcilerDisclaimer := DoNotEdit])
    ensures Transformed(KymaComponent, o, c) == c.(labels := c.labels[Component := Text(o.component)][PartOf := Kyma])
    ensures Transformed(ManagedByDeclarativeV2, o, c) == c.(labels := c.labels[ManagedBy := DeclarativeV2])
    ensures Transformed(WatchedByOwnedBy, o, c)
            == c.(labels := c.labels[WatchedBy := ModuleManager][OwnedBy := OwnerName(o.ns, o.name)])
  {
    assert c.labels + map[] == c.labels && c.annotations + map[] == c.annotations;
    assert c.labels + Labels(KymaComponent, o) == c.labels[Component := Text(o.component)][PartOf := Kyma];
    assert c.labels + Labels(WatchedByOwnedBy, o)
        == c.labels[WatchedBy := ModuleManager][OwnedBy := OwnerName(o.ns, o.name)];
  }

  /** What the default transforms leave: five labels and one annotation that name the owner, and everything else as it was. */
  lemma DefaultsWrite(o: Owner, c: Content)
    ensures TransformedBy(DEFAULTS, o, c)
            == c.(labels := c.labels[Component := Text(o.component)][PartOf := Kyma][ManagedBy := DeclarativeV2]
                                    [WatchedBy := ModuleManager][OwnedBy := OwnerName(o.ns, o.name)],
                  annotations := c.annotations[ManagedByReconcilerDisclaimer := DoNotEdit])
  {
    DefaultsInTurn(o, c);
    var c1 := Transformed(Disclaimer, o, c);
    var c2 := Transformed(KymaComponent, o, c1);
    var c3 := Transformed(ManagedByDeclarativeV2, o, c2);
    TransformWrites(o, c);
    TransformWrites(o, c1);
    TransformWrites(o, c2);
    TransformWrites(o, c3);
  }

  /** The default transforms write different keys, so their order does not matter. */
  lemma TransformsCommute(s: Transform, t: Transform, o: Owner, c: Content)
    ensures Transformed(s, o, Transformed(t, o, c)) == Transformed(t, o, Transformed(s, o, c))
  {
    if s != t {
      assert c.labels + Labels(t, o) + Labels(s, o) == c.labels + Labels(s, o) + Labels(t, o);
      assert c.annotations + Annotations(t) + Annotations(s) == c.annotations + Annotations(s) + Annotations(t);
    }
  }

  /** Transforming again changes nothing: parsing a manifest that was already transformed would be harmless. */
  lemma {:induction false} TransformIsIdempotent(t: Transform, o: Owner, c: Content)
    ensures Transformed(t, o, Transformed(t, o, c)) == Transformed(t, o, c)
  {
    assert c.labels + Labels(t, o) + Labels(t, o) == c.labels + Labels(t, o);
    assert c.annotations + Annotations(t) + Annotations(t) == c.annotations + Annotations(t);
  }

  /** A transform may be applied after the others instead of before them. */
  lemma {:induction false} TransformSlides(t: Transform, ts: seq<Transform>, o: Owner, c: Content)
    ensures TransformedBy(ts, o, Transformed(t, o, c)) == Transformed(t, o, TransformedBy(ts, o, c))
    decreases |ts|
  {
    if ts != [] {
      TransformsCommute(ts[0], t, o, c);
      TransformSlides(t, ts[1..], o, Transformed(ts[0], o, c));
    }
  }

  lemma {:induction false} TransformAbsorbs(t: Transform, ts: seq<Transform>, o: Owner, c: Content)
    requires t in ts
    ensures TransformedBy(ts, o, Transformed(t, o, c)) == TransformedBy(ts, o, c)
    decreases |ts|
  {
    if ts[0] == t {
      TransformIsIdempotent(t, o, c);
    } else {
      assert t in ts[1..];
      TransformsCommute(ts[0], t, o, c);
      TransformAbsorbs(t, ts[1..], o, Transformed(ts[0], o, c));
    }
  }

  /** More transforms, all of which are among those to come, change nothing. */
  lemma {:induction false} TransformsAbsorb(more: seq<Transform>, ts: seq<Transform>, o: Owner, c: Content)
    requires forall t | t in more :: t in ts
    ensures TransformedBy(ts, o, TransformedBy(more, o, c)) == TransformedBy(ts, o, c)
    decreases |more|
  {
    if more != [] {
      assert more[0] in more && forall t | t in more[1..] :: t in more;
      TransformsAbsorb(more[1..], ts, o, Transformed(more[0], o, c));
      TransformAbsorbs(more[0], ts, o, c);
    }
  }

  lemma {:induction false} TransformsSlide(more: seq<Transform>, ts: seq<Transform>, o: Owner, c: Content)
    ensures TransformedBy(ts, o, TransformedBy(more, o, c)) == TransformedBy(more, o, TransformedBy(ts, o, c))
    decreases |more|
  {
    if more != [] {
      TransformsSlide(more[1..], ts, o, Transformed(more[0], o, c));
      TransformSlides(more[0], ts, o, c);
    }
  }

  /** What a list of transforms does depends only on which transforms it holds, not on their order or on how often they run:
      parsing a manifest that was transformed already is harmless. */
  lemma OnlyTheSetMatters(ts: seq<Transform>, ts': seq<Transform>, o: Owner, c: Content)
    requires forall t :: t in ts <==> t in ts'
    ensures TransformedBy(ts, o, c) == TransformedBy(ts', o, c)
  {
    TransformsAbsorb(ts, ts', o, c);
    TransformsAbsorb(ts', ts, o, c);
    TransformsSlide(ts, ts', o, c);
  }
}

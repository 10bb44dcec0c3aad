/** Manifest objects on the heap, as the parser, the transforms and the converters pass them around by reference. */
module Objects {
  import opened Identity

  /** The keys of labels and annotations; the fixed ones stand for the strings the transforms write. */
  datatype Tag =
    | Component | PartOf | ManagedBy | WatchedBy | OwnedBy | ManagedByReconcilerDisclaimer
    | Other(text: string)

  /** The values of labels and annotations. */
  datatype Mark =
    | Kyma | DeclarativeV2 | ModuleManager | DoNotEdit
    | OwnerName(ns: string, name: string)
    | Text(text: string)

  /** Everything a manifest object holds; `body` stands for what no step looks at. */
  datatype Content = Content(
    name: string,
    ns: string,
    gvk: GroupVersionKind,
    labels: map<Tag, Mark>,
    annotations: map<Tag, Mark>,
    body: string)

  class Unstructured {
    var content: Content

    constructor (content: Content)
      ensures this.content == content
    {
      this.content := content;
    }

    method DeepCopy() returns (copy: Unstructured)
      ensures fresh(copy) && copy.content == content
    {
      copy := new Unstructured(content);
    }

    method Overwrite(content: Content)
      modifies this
      ensures this.content == content
    {
      this.content := content;
    }

    method SetNamespace(ns: string)
      modifies this
      ensures content == old(content).(ns := ns)
    {
      content := content.(ns := ns);
    }

    method SetGroupVersionKind(gvk: GroupVersionKind)
      modifies this
      ensures content == old(content).(gvk := gvk)
    {
      content := content.(gvk := gvk);
    }

    method SetLabels(labels: map<Tag, Mark>)
      modifies this
      ensures content == old(content).(labels := labels)
    {
      content := content.(labels := labels);
    }

    method SetAnnotations(annotations: map<Tag, Mark>)
      modifies this
      ensures content == old(content).(annotations := annotations)
    {
      content := content.(annotations := annotations);
    }
  }

  ghost predicate Distinct(objs: seq<Unstructured>) {
    forall i, j | 0 <= i < j < |objs| :: objs[i] != objs[j]
  }

  ghost function Contents(objs: seq<Unstructured>): (cs: seq<Content>)
    reads objs
    ensures |cs| == |objs| && forall i | 0 <= i < |objs| :: cs[i] == objs[i].content
  {
    seq(|objs|, i requires 0 <= i < |objs| reads objs => objs[i].content)
  }
}

/** The identity algebra of tracked resources: `Resource.ID`, the keys the two sides of the controller
    compare by, and `ResourcesDiff`. */
module Identity {
  import opened Text

  datatype GroupVersionKind = GroupVersionKind(group: string, version: string, kind: string)

  /** What names one object of the target cluster: the version is only a way to look at it. */
  datatype ObjectKey = ObjectKey(ns: string, name: string, group: string, kind: string)

  /** The rule by which a list difference recognises a resource: the namespace, name and kind,
      with or without the group. */
  datatype Matcher = ByKind | ByGroupAndKind

  datatype Resource = Resource(name: string, ns: string, gvk: GroupVersionKind) {
    function Parts(): seq<string> {
      [ns, name, gvk.group, gvk.version, gvk.kind]
    }

    function ID(): string {
      Join(Parts(), '/')
    }

    function Key(): ObjectKey {
      ObjectKey(ns, name, gvk.group, gvk.kind)
    }

    function MatchKey(m: Matcher): ObjectKey {
      ObjectKey(ns, name, if m.ByKind? then "" else gvk.group, gvk.kind)
    }

    /** API names, groups, versions and kinds never hold a slash. */
    ghost predicate Slashless() {
      forall p | p in Parts() :: Free(p, '/')
    }
  }

  lemma IDInjective(a: Resource, b: Resource)
    requires a.Slashless() && b.Slashless()
    requires a.ID() == b.ID()
    ensures a == b
  {
    JoinInjective(a.Parts(), b.Parts(), '/');
    assert a.Parts()[0] == b.Parts()[0] && a.Parts()[1] == b.Parts()[1] && a.Parts()[2] == b.Parts()[2]
        && a.Parts()[3] == b.Parts()[3] && a.Parts()[4] == b.Parts()[4];
  }

  /** The text of an identifier. */
  lemma IDText(r: Resource)
    ensures r.ID() == r.ns + "/" + r.name + "/" + r.gvk.group + "/" + r.gvk.version + "/" + r.gvk.kind
  {
    var kind := r.gvk.kind;
    var version := r.gvk.version + "/" + kind;
    var group := r.gvk.group + "/" + version;
    JoinCons(r.gvk.version, [kind], '/');
    JoinCons(r.gvk.group, [r.gvk.version, kind], '/');
    JoinCons(r.name, [r.gvk.group, r.gvk.version, kind], '/');
    JoinCons(r.ns, [r.name, r.gvk.group, r.gvk.version, kind], '/');
    assert r.ID() == r.ns + "/" + (r.name + "/" + group);
  }

  /** With a slash inside a component two different resources share one ID. */
  lemma IDCollidesWithSlash() returns (a: Resource, b: Resource)
    ensures a != b && a.ID() == b.ID()
  {
    var gvk := GroupVersionKind("g", "v", "k");
    a, b := Resource("n", "x/y", gvk), Resource("y/n", "x", gvk);
    var tail := ["g", "v", "k"];
    assert a.Parts()[2..] == tail && b.Parts()[2..] == tail;
    assert a.Parts()[1..] == ["n"] + tail && b.Parts()[1..] == ["y/n"] + tail;
    assert Join(["n"] + tail, '/') == "n" + "/" + Join(tail, '/') by {
      assert (["n"] + tail)[1..] == tail;
    }
    assert Join(["y/n"] + tail, '/') == "y/n" + "/" + Join(tail, '/') by {
      assert (["y/n"] + tail)[1..] == tail;
    }
    calc {
      a.ID();
      "x/y" + "/" + ("n" + "/" + Join(tail, '/'));
      "x" + "/" + ("y/n" + "/" + Join(tail, '/'));
      b.ID();
    }
  }

  function IDs(rs: seq<Resource>): set<string> {
    set r | r in rs :: r.ID()
  }

  function Keys(rs: seq<Resource>): set<ObjectKey> {
    set r | r in rs :: r.Key()
  }

  function MatchKeys(m: Matcher, rs: seq<Resource>): set<ObjectKey> {
    set r | r in rs :: r.MatchKey(m)
  }

  ghost predicate DistinctIDs(rs: seq<Resource>) {
    forall i, j | 0 <= i < j < |rs| :: rs[i].ID() != rs[j].ID()
  }

  ghost predicate AllSlashless(rs: seq<Resource>) {
    forall r | r in rs :: r.Slashless()
  }

  /** A list as a renderer should give it: no ID twice, and no component with a slash. */
  ghost predicate GoodList(rs: seq<Resource>) {
    DistinctIDs(rs) && AllSlashless(rs)
  }

  /** The resources of `rs` whose ID is not among `known`, in order. */
  function Missing(rs: seq<Resource>, known: set<string>): seq<Resource> {
    if rs == [] then
      []
    else
      var init := Missing(rs[..|rs| - 1], known);
      var last := rs[|rs| - 1];
      if last.ID() in known then init else init + [last]
  }

  /** What `ResourcesDiff` computes: it looks only from the longer list (the first on a tie). */
  function DiffOf(a: seq<Resource>, b: seq<Resource>): seq<Resource> {
    if |a| < |b| then Missing(b, IDs(a)) else Missing(a, IDs(b))
  }

  method ResourcesDiff(a: seq<Resource>, b: seq<Resource>) returns (diff: seq<Resource>)
    ensures diff == DiffOf(a, b)
    decreases |a| < |b|
  {
    if |a| < |b| {
      diff := ResourcesDiff(b, a);
      return;
    }
    var known: set<string> := {};
    for i := 0 to |b|
      invariant known == IDs(b[..i])
    {
      assert b[..i + 1] == b[..i] + [b[i]];
      known := known + {b[i].ID()};
    }
    assert b[..|b|] == b;
    diff := [];
    for i := 0 to |a|
      invariant diff == Missing(a[..i], known)
    {
      assert a[..i + 1][..i] == a[..i];
      if a[i].ID() !in known {
        diff := diff + [a[i]];
      }
    }
    assert a[..|a|] == a;
  }

  lemma {:induction false} MissingMembers(rs: seq<Resource>, known: set<string>, x: Resource)
    ensures multiset(Missing(rs, known))[x] == if x.ID() in known then 0 else multiset(rs)[x]
  {
    if rs != [] {
      MissingMembers(rs[..|rs| - 1], known, x);
      assert rs == rs[..|rs| - 1] + [rs[|rs| - 1]];
    }
  }

  /** In general the difference is empty exactly when every ID of the longer list occurs in the other. */
  lemma DiffEmptyIffCovered(a: seq<Resource>, b: seq<Resource>)
    ensures DiffOf(a, b) == [] <==>
            (if |a| < |b| then IDs(b) <= IDs(a) else IDs(a) <= IDs(b))
  {
    var (long, short) := if |a| < |b| then (b, a) else (a, b);
    var diff := Missing(long, IDs(short));
    if diff == [] {
      forall id | id in IDs(long) ensures id in IDs(short) {
        var x :| x in long && x.ID() == id;
        MissingMembers(long, IDs(short), x);
        assert multiset(long)[x] > 0;
      }
    } else {
      var x := diff[0];
      MissingMembers(long, IDs(short), x);
      assert multiset(diff)[x] > 0;
      assert x in multiset(long) && x in long;
      assert x.ID() in IDs(long) && x.ID() !in IDs(short);
    }
  }

  /** Counting IDs: never more than resources, and as many exactly when no ID repeats. */
  lemma IDsOfOneMore(init: seq<Resource>, last: Resource)
    ensures IDs(init + [last]) == IDs(init) + {last.ID()}
  {
    var rs := init + [last];
    forall r | r in init ensures r.ID() in IDs(rs) {
      assert r in rs;
    }
    assert last in rs;
  }

  lemma DistinctIDsOfOneMore(init: seq<Resource>, last: Resource)
    requires DistinctIDs(init + [last])
    ensures DistinctIDs(init) && last.ID() !in IDs(init)
  {
    var rs := init + [last];
    assert forall i | 0 <= i < |init| :: rs[i] == init[i];
    assert rs[|init|] == last;
  }

  lemma CountOneMore<T>(a: set<T>, x: T)
    ensures |a + {x}| <= |a| + 1
    ensures x !in a ==> |a + {x}| == |a| + 1
  {
  }

  lemma {:induction false} CountIDs(rs: seq<Resource>)
    ensures |IDs(rs)| <= |rs|
    decreases |rs|
  {
    if rs == [] {
      assert IDs(rs) == {};
    } else {
      var init, last := rs[..|rs| - 1], rs[|rs| - 1];
      CountIDs(init);
      assert rs == init + [last];
      IDsOfOneMore(init, last);
      CountOneMore(IDs(init), last.ID());
    }
  }

  lemma {:induction false} CountDistinctIDs(rs: seq<Resource>)
    requires DistinctIDs(rs)
    ensures |IDs(rs)| == |rs|
    decreases |rs|
  {
    if rs == [] {
      assert IDs(rs) == {};
    } else {
      var init, last := rs[..|rs| - 1], rs[|rs| - 1];
      assert rs == init + [last];
      DistinctIDsOfOneMore(init, last);
      CountDistinctIDs(init);
      IDsOfOneMore(init, last);
      CountOneMore(IDs(init), last.ID());
    }
  }

  lemma SubsetOfNoSmallerIsAll<T>(a: set<T>, b: set<T>)
    requires a <= b && |b| <= |a|
    ensures a == b
  {
    assert b == a + (b - a);
    assert |b| == |a| + |b - a|;
  }

  /** When the longer list repeats no ID, an empty difference means equal sets of IDs. */
  lemma DiffEmptyIffSameIDs(a: seq<Resource>, b: seq<Resource>)
    requires DistinctIDs(if |a| < |b| then b else a)
    ensures DiffOf(a, b) == [] <==> IDs(a) == IDs(b)
  {
    DiffEmptyIffCovered(a, b);
    var longer, shorter := if |a| < |b| then b else a, if |a| < |b| then a else b;
    CountDistinctIDs(longer);
    CountIDs(shorter);
    if DiffOf(a, b) == [] {
      SubsetOfNoSmallerIsAll(IDs(longer), IDs(shorter));
    }
  }

  function Repeat(c: char, n: nat): (s: string)
    ensures |s| == n
  {
    seq(n, _ => c)
  }

  /** A resource whose ID no listed resource has. */
  lemma {:induction false} FreshResource(rs: seq<Resource>) returns (x: Resource)
    ensures x.ID() !in IDs(rs)
    ensures forall r | r in rs :: |r.ID()| < |x.ID()|
    ensures |x.ns| > 0
  {
    var gvk := GroupVersionKind("", "", "");
    if rs == [] {
      x := Resource("", "a", gvk);
    } else {
      var init, last := rs[..|rs| - 1], rs[|rs| - 1];
      var y := FreshResource(init);
      x := Resource("", Repeat('a', |y.ID()| + |last.ID()| + 1), gvk);
      assert |x.ID()| >= |x.ns|;
      forall r | r in rs ensures |r.ID()| < |x.ID()| {
        if r != last {
          var i :| 0 <= i < |rs| && rs[i] == r;
          assert init[i] == r;
        }
      }
    }
  }

  /** Replacing a resource whose ID occurs twice by a new one goes unseen. */
  lemma HiddenChange(l: seq<Resource>, i: nat, j: nat) returns (s: seq<Resource>)
    requires i < j < |l| && l[i].ID() == l[j].ID()
    ensures |s| == |l| && DiffOf(l, s) == [] && IDs(s) != IDs(l)
  {
    var x := FreshResource(l);
    s := l[j := x];
    assert s[j] == x && x.ID() in IDs(s);
    forall id | id in IDs(l) ensures id in IDs(s) {
      var r :| r in l && r.ID() == id;
      var k :| 0 <= k < |l| && l[k] == r;
      assert s[if k == j then i else k].ID() == id;
    }
    DiffEmptyIffCovered(l, s);
  }

  /** The exact condition under which `ResourcesDiff` of `l` against every list that is not longer detects
      precisely a change of the ID set: `l` repeats no ID. */
  lemma DiffDetectsChangeIffDistinct(l: seq<Resource>)
    ensures (forall s: seq<Resource> | |s| <= |l| :: DiffOf(l, s) == [] <==> IDs(s) == IDs(l))
            <==> DistinctIDs(l)
  {
    if DistinctIDs(l) {
      forall s: seq<Resource> | |s| <= |l| ensures DiffOf(l, s) == [] <==> IDs(s) == IDs(l) {
        DiffEmptyIffSameIDs(l, s);
      }
    } else {
      var i, j :| 0 <= i < j < |l| && l[i].ID() == l[j].ID();
      var s := HiddenChange(l, i, j);
      assert |s| <= |l|;
    }
  }

  /** Equal ID sets of slash-free lists name the same resources, hence the same objects. */
  lemma SameIDsSameResources(a: seq<Resource>, b: seq<Resource>)
    requires AllSlashless(a) && AllSlashless(b)
    requires IDs(a) <= IDs(b)
    ensures forall r | r in a :: r in b
    ensures Keys(a) <= Keys(b)
    ensures forall m :: MatchKeys(m, a) <= MatchKeys(m, b)
  {
    forall r | r in a ensures r in b {
      assert r.ID() in IDs(a);
      var x :| x in b && x.ID() == r.ID();
      IDInjective(r, x);
    }
  }
}

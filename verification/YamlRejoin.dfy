/** Joining the same slices a second time, after the first time wrote line breaks into them. */
module YamlRejoin {
  import opened YamlJoin
  import opened YamlMemory
  import opened YamlSlices

  /** The range that trimming leaves before markers are cut, and the range after that. */
  function Outer(s: string): (r: Range)
    ensures r.lo <= r.hi <= |s|
  {
    Trim(s, Range(0, |s|))
  }

  function Inner(s: string): (r: Range)
    ensures Outer(s).lo <= r.lo <= r.hi <= Outer(s).hi
  {
    CutMarkers(s, Outer(s))
  }

  /** A document whose body is followed by something else than white space: the marker that was cut off. */
  predicate Tight(s: string) {
    var r := Bounds(s);
    r.lo < r.hi < |s| && !IsSpace(s[r.hi])
  }

  /** A document whose body is itself a marker, which is cut off once a line break follows. */
  predicate Bare(s: string) {
    var r := Bounds(s);
    r.lo < r.hi < |s| && Inner(s).lo == Outer(s).lo && r.hi == Outer(s).lo + 3 && Dashes(s, Outer(s).lo)
  }

  /** A document whose body is another one once a line break follows it. */
  predicate Moved(s: string) {
    Tight(s) || Bare(s)
  }

  /** What is known about a document with a body. */
  lemma Shape(s: string)
    ensures var o, n, r := Outer(s), Inner(s), Bounds(s);
            r.lo < r.hi ==>
              && BlankIn(s, 0, o.lo) && BlankIn(s, o.hi, |s|) && !IsSpace(s[o.lo]) && !IsSpace(s[o.hi - 1])
              && BlankIn(s, n.lo, r.lo) && BlankIn(s, r.hi, n.hi) && !IsSpace(s[r.lo]) && !IsSpace(s[r.hi - 1])
  {
    TrimStops(s, Range(0, |s|));
    TrimStops(s, Inner(s));
  }

  lemma OuterStays(s: string, t: string, i: nat)
    requires |t| == |s| && i < |s| && t == s[i := '\n']
    requires Bounds(s).lo < Bounds(s).hi == i
    ensures Outer(t) == Outer(s)
  {
    Shape(s);
    var o := Outer(s);
    TrimIs(t, Range(0, |t|), o.lo, o.hi);
  }

  lemma BareIsMarker(s: string)
    requires Bare(s)
    ensures Body(s) == MARKER
  {
    Shape(s);
  }

  /** White space that becomes a line break does not move the body. */
  lemma LooseStays(s: string)
    requires !Moved(s)
    ensures Body(Touched(s)) == Body(s) && Bounds(Touched(s)) == Bounds(s)
  {
    var t, n, r := Touched(s), Inner(s), Bounds(s);
    if r.lo < r.hi < |s| {
      Shape(s);
      OuterStays(s, t, r.hi);
      assert Inner(t) == n;
      TrimIs(t, n, r.lo, r.hi);
      assert t[r.lo..r.hi] == s[r.lo..r.hi];
    }
  }

  lemma TightInner(s: string)
    requires Tight(s) && !Bare(s)
    ensures var o, n, r := Outer(s), Inner(s), Bounds(s);
            r.hi == o.hi - 3 && Dashes(s, r.hi) && Inner(Touched(s)) == Range(n.lo, o.hi)
  {
    var o, n, r := Outer(s), Inner(s), Bounds(s);
    Shape(s);
    OuterStays(s, Touched(s), r.hi);
    assert r.hi == n.hi == o.hi - 3;
  }

  /** A marker that directly follows the body loses its first dash, and what is left of it becomes part of the body. */
  lemma TightGrows(s: string)
    requires Tight(s) && !Bare(s)
    ensures Body(Touched(s)) == Body(s) + "\n--"
  {
    var t, o, r := Touched(s), Outer(s), Bounds(s);
    Shape(s);
    TightInner(s);
    TrimIs(t, Inner(t), r.lo, o.hi);
    assert t[r.lo..o.hi] == s[r.lo..r.hi] + ['\n', '-', '-'];
  }

  /** A body that is itself a marker is gone, or reduced to what is left of the marker that followed it. */
  lemma BareVanishes(s: string)
    requires Bare(s)
    ensures Body(s) == MARKER && (Body(Touched(s)) == "" || Body(Touched(s)) == "--")
  {
    var t, o, n, r := Touched(s), Outer(s), Inner(s), Bounds(s);
    BareIsMarker(s);
    Shape(s);
    OuterStays(s, t, r.hi);
    assert n.hi == o.hi - 3;
    if r.hi == n.hi {
      assert Inner(t) == Range(o.lo + 4, o.hi);
      TrimIs(t, Inner(t), o.lo + 4, o.hi);
      assert t[o.lo + 4..o.hi] == ['-', '-'];
    } else {
      assert Inner(t) == Range(r.hi + 1, n.hi);
      TrimStops(t, Inner(t));
    }
  }

  /** The exact condition, for every document: its body survives the first join unless it is tight or bare. */
  lemma BodySurvivesIff(s: string)
    ensures Body(Touched(s)) == Body(s) <==> !Moved(s)
  {
    if Bare(s) {
      BareVanishes(s);
    } else if Tight(s) {
      TightGrows(s);
    } else {
      LooseStays(s);
    }
  }

  // ---------------------------------------------------------------- all documents

  function AllTouched(docs: seq<string>): (ds: seq<string>)
    ensures |ds| == |docs|
  {
    if docs == [] then [] else [Touched(docs[0])] + AllTouched(docs[1..])
  }

  predicate AnyMoved(docs: seq<string>) {
    docs != [] && (Moved(docs[0]) || AnyMoved(docs[1..]))
  }

  lemma JoinedCons(docs: seq<string>, first: bool)
    requires docs != []
    ensures JoinFrom(docs, first) == Piece(docs[0], first) + JoinFrom(docs[1..], false)
  {
  }

  /** What follows a document is nothing or starts with a marker. */
  ghost predicate Follows(x: string) {
    x == "" || (|x| > 3 && x[0] == '-' && x[1] == '-' && x[2] == '-')
  }

  lemma {:induction false} RestFollows(docs: seq<string>)
    ensures Follows(JoinFrom(docs, false))
    decreases |docs|
  {
    if docs != [] {
      JoinedCons(docs, false);
      RestFollows(docs[1..]);
    }
  }

  /** A body that has moved shows, whatever follows. */
  lemma MovedShows(doc: string, x: string, y: string)
    requires Moved(doc) && Follows(x) && Follows(y)
    ensures Body(doc) + "\n" + x != Body(Touched(doc)) + "\n" + y
  {
    var b, b' := Body(doc), Body(Touched(doc));
    var s, t := b + "\n" + x, b' + "\n" + y;
    if Bare(doc) {
      BareVanishes(doc);
      assert s[2] == '-' && s[0] == '-';
      assert t[|b'|] == '\n';
    } else {
      TightGrows(doc);
      assert t[|b| + 3] == '\n' && |t| >= |b| + 4;
      assert x != "" ==> s[|b| + 3] == x[2];
    }
  }

  lemma {:induction false} JoinAfterIff(docs: seq<string>, first: bool)
    ensures JoinFrom(AllTouched(docs), first) == JoinFrom(docs, first) <==> !AnyMoved(docs)
    decreases |docs|
  {
    if docs != [] {
      var touched := AllTouched(docs);
      assert touched[1..] == AllTouched(docs[1..]);
      JoinedCons(docs, first);
      JoinedCons(touched, first);
      var x, y := JoinFrom(docs[1..], false), JoinFrom(touched[1..], false);
      if Moved(docs[0]) {
        RestFollows(docs[1..]);
        RestFollows(touched[1..]);
        MovedShows(docs[0], x, y);
        SamePrefix(if first then "" else MARKER + "\n", Body(docs[0]) + "\n" + x, Body(touched[0]) + "\n" + y);
        assert JoinFrom(docs, first) == (if first then "" else MARKER + "\n") + (Body(docs[0]) + "\n" + x);
        assert JoinFrom(touched, first) == (if first then "" else MARKER + "\n") + (Body(touched[0]) + "\n" + y);
      } else {
        JoinAfterIff(docs[1..], false);
        LooseStays(docs[0]);
        SamePrefix(Piece(docs[0], first), x, y);
      }
    }
  }

  lemma SamePrefix(p: string, x: string, y: string)
    ensures p + x == p + y <==> x == y
  {
    assert (p + x)[|p|..] == x && (p + y)[|p|..] == y;
  }

  /** A second join of the same slices gives the same text if and only if no body was directly followed by a marker, or was a
      marker itself. */
  lemma SecondJoinIff(docs: seq<string>)
    ensures Joined(AllTouched(docs)) == Joined(docs) <==> !AnyMoved(docs)
  {
    JoinAfterIff(docs, true);
  }

  /** Such a document: the line break that follows the body replaces the first dash of the marker. */
  lemma MarkerRightBehind()
    ensures Tight("a---") && Joined(AllTouched(["a---"])) != Joined(["a---"])
  {
    var s := "a---";
    TrimIs(s, Range(0, 4), 0, 4);
    TrimIs(s, Range(0, 1), 0, 1);
    assert Bounds(s) == Range(0, 1);
    SecondJoinIff([s]);
  }

  lemma {:induction false} TouchedAt(docs: seq<string>, i: nat)
    requires i < |docs|
    ensures AllTouched(docs)[i] == Touched(docs[i])
    decreases |docs|
  {
    if i > 0 {
      TouchedAt(docs[1..], i - 1);
    }
  }

  /** No document's line break replaces anything but a line break in another document. */
  ghost predicate Apart(docs: seq<Slice>, mem: Memory)
    requires AllFit(docs, mem)
  {
    forall i, j | 0 <= i < |docs| && 0 <= j < |docs| :: !Spoils(Behind, docs, mem, i, j)
  }

  lemma ViewsAfterCall(docs: seq<Slice>, ms: seq<Memory>)
    requires Stages(Behind, docs, ms) && AllFit(docs, ms[0]) && AllFit(docs, ms[|docs|]) && Apart(docs, ms[0])
    ensures Views(docs, ms[|docs|]) == AllTouched(Views(docs, ms[0]))
  {
    var views := Views(docs, ms[0]);
    forall k | 0 <= k < |docs| ensures Views(docs, ms[|docs|])[k] == AllTouched(views)[k] {
      TouchedAt(views, k);
      ViewAfter(Behind, docs, ms, |docs|, k);
    }
  }

  /** Documents that are neither tight nor bare are apart after a call if they were before it. */
  lemma StaysApart(docs: seq<Slice>, ms: seq<Memory>)
    requires Stages(Behind, docs, ms) && AllFit(docs, ms[0]) && AllFit(docs, ms[|docs|]) && Apart(docs, ms[0])
    requires forall k | 0 <= k < |docs| :: !Moved(View(docs[k], ms[0]))
    ensures Apart(docs, ms[|docs|])
  {
    forall i, j | 0 <= i < |docs| && 0 <= j < |docs| ensures !Spoils(Behind, docs, ms[|docs|], i, j) {
      var v := View(docs[i], ms[0]);
      ViewAfter(Behind, docs, ms, |docs|, i);
      ViewAfter(Behind, docs, ms, i, i);
      SamePlaceBehind(v);
      BreakIsThere(Behind, docs, ms, i);
      BreakSpoilsNothing(Behind, docs, ms[|docs|], i, j, v);
    }
  }

  lemma BreakSpoilsNothing(spot: Spot, docs: seq<Slice>, mem: Memory, i: nat, j: nat, v: string)
    requires AllFit(docs, mem) && i < |docs| && j < |docs| && spot(View(docs[i], mem)) == spot(v)
    requires var at, bytes := Position(spot, docs[i].start, v), mem[docs[i].buffer];
             at.Some? && at.value < |bytes| ==> bytes[at.value] == '\n'
    ensures !Spoils(spot, docs, mem, i, j)
  {
  }

  lemma SamePlaceBehind(v: string)
    requires !Moved(v)
    ensures Behind(Appended(v, Behind(v))) == Behind(v)
  {
    LooseStays(v);
    assert Touched(v) == Appended(v, Behind(v));
  }

  lemma {:induction false} NoneMoved(docs: seq<string>, k: nat)
    requires !AnyMoved(docs) && k < |docs|
    ensures !Moved(docs[k])
    decreases |docs|
  {
    if k > 0 {
      NoneMoved(docs[1..], k - 1);
    }
  }

  /** What two calls on the same slices read: the first one the documents, the second one the touched documents, if no
      document spoils another one before either of the calls; and the second condition holds if no document has moved. */
  lemma TwoCalls(docs: seq<Slice>, ms: seq<Memory>, ms': seq<Memory>)
    requires Stages(Behind, docs, ms) && Stages(Behind, docs, ms') && ms'[0] == ms[|docs|]
    requires AllFit(docs, ms[0]) && AllFit(docs, ms'[0]) && Apart(docs, ms[0])
    ensures Read(docs, ms) == Views(docs, ms[0])
    ensures Apart(docs, ms'[0]) ==> Read(docs, ms') == AllTouched(Views(docs, ms[0]))
    ensures !AnyMoved(Views(docs, ms[0])) ==> Apart(docs, ms'[0])
  {
    var views := Views(docs, ms[0]);
    ReadsTruthIff(Behind, docs, ms);
    ReadsTruthIff(Behind, docs, ms');
    ViewsAfterCall(docs, ms);
    if !AnyMoved(views) {
      forall k | 0 <= k < |docs| ensures !Moved(View(docs[k], ms[0])) {
        NoneMoved(views, k);
      }
      StaysApart(docs, ms);
    }
  }

  /** Joining twice, with slices that may share memory: each text is that of the documents as they are read, the second time from
      what the first call left. Where no document spoils another one, the second text is the first one again if no document has
      moved; and exactly then, unless the second call reads what it spoiled itself. */
  method JoinTwice(docs: seq<Slice>) returns (first: string, second: string, ghost ms: seq<Memory>, ghost ms': seq<Memory>)
    requires AllFit(docs, Snapshot(Buffers(docs)))
    modifies Buffers(docs)
    ensures Stages(Behind, docs, ms) && ms[0] == old(Snapshot(Buffers(docs))) && first == Joined(Read(docs, ms))
    ensures Stages(Behind, docs, ms') && ms'[0] == ms[|docs|] && second == Joined(Read(docs, ms'))
    ensures AllFit(docs, ms[0]) && AllFit(docs, ms'[0])
    ensures var views := Views(docs, ms[0]);
            Apart(docs, ms[0]) ==>
              && first == Joined(views)
              && (!AnyMoved(views) ==> first == second)
              && (Apart(docs, ms'[0]) ==> (first == second <==> !AnyMoved(views)))
  {
    first, ms := JoinYAMLDocuments(docs);
    second, ms' := JoinYAMLDocuments(docs);
    if Apart(docs, ms[0]) {
      TwoCalls(docs, ms, ms');
      SecondJoinIff(Views(docs, ms[0]));
    }
  }
}

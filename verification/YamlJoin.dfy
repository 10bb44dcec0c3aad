/** Joining YAML documents with one marker line between any two of them, on byte slices that the join appends to in place. */
module YamlJoin {
  import opened Text

  const MARKER := "---"

  /** Space, tab, line feed, vertical tab, form feed and carriage return. */
  const WHITE := {' ', '\t', '\n', '\U{0B}', '\U{0C}', '\r'}

  predicate IsSpace(c: char) {
    c == ' ' || '\t' <= c <= '\r'
  }

  lemma SpaceIsWhite(c: char)
    ensures IsSpace(c) <==> c in WHITE
  {
    assert '\t' as int == 9 && '\n' as int == 10 && '\r' as int == 13;
    if '\t' <= c <= '\r' {
      assert 9 <= c as int <= 13;
      assert c as int == 11 ==> c == '\U{0B}';
      assert c as int == 12 ==> c == '\U{0C}';
    }
  }

  // ---------------------------------------------------------------- bodies

  /** The first position in a range that is not white space. */
  function SkipSpace(s: string, lo: nat, hi: nat): (r: nat)
    requires lo <= hi <= |s|
    ensures lo <= r <= hi
    decreases hi - lo
  {
    if lo < hi && IsSpace(s[lo]) then SkipSpace(s, lo + 1, hi) else lo
  }

  /** The position after the last one in a range that is not white space. */
  function DropSpace(s: string, lo: nat, hi: nat): (r: nat)
    requires lo <= hi <= |s|
    ensures lo <= r <= hi
    decreases hi
  {
    if lo < hi && IsSpace(s[hi - 1]) then DropSpace(s, lo, hi - 1) else hi
  }

  predicate Dashes(s: string, k: nat) {
    k + 3 <= |s| && s[k] == '-' && s[k + 1] == '-' && s[k + 2] == '-'
  }

  /** A range that starts with a marker and its line break. */
  predicate LeadingMarker(s: string, lo: nat, hi: nat)
    requires lo <= hi <= |s|
  {
    lo + 4 <= hi && Dashes(s, lo) && s[lo + 3] == '\n'
  }

  /** A range that ends with a marker. */
  predicate TrailingMarker(s: string, lo: nat, hi: nat)
    requires lo <= hi <= |s|
  {
    lo + 3 <= hi && Dashes(s, hi - 3)
  }

  datatype Range = Range(lo: nat, hi: nat)

  function Trim(s: string, r: Range): (t: Range)
    requires r.lo <= r.hi <= |s|
    ensures r.lo <= t.lo <= t.hi <= r.hi
  {
    var lo := SkipSpace(s, r.lo, r.hi);
    Range(lo, DropSpace(s, lo, r.hi))
  }

  function CutMarkers(s: string, r: Range): (t: Range)
    requires r.lo <= r.hi <= |s|
    ensures r.lo <= t.lo <= t.hi <= r.hi
  {
    var lo := if LeadingMarker(s, r.lo, r.hi) then r.lo + 4 else r.lo;
    Range(lo, if TrailingMarker(s, lo, r.hi) then r.hi - 3 else r.hi)
  }

  /** What is left of a document without surrounding white space and without one leading and one trailing marker. */
  function Bounds(s: string): (r: Range)
    ensures r.lo <= r.hi <= |s|
  {
    Trim(s, CutMarkers(s, Trim(s, Range(0, |s|))))
  }

  function Body(s: string): string {
    s[Bounds(s).lo..Bounds(s).hi]
  }

  /** The joined text of documents from one position on: a marker precedes every document but the first of all. */
  function JoinFrom(docs: seq<string>, first: bool): string {
    if docs == [] then
      ""
    else if docs[0] == "" then
      JoinFrom(docs[1..], false)
    else
      (if first then "" else MARKER + "\n") + (Body(docs[0]) + "\n" + JoinFrom(docs[1..], false))
  }

  function Joined(docs: seq<string>): string {
    JoinFrom(docs, true)
  }

  // ---------------------------------------------------------------- what splitting gives back

  /** A line that separates documents, as section 9.1.2 of YAML 1.2.2 has it. */
  predicate IsMarker(line: string) {
    |line| >= 3 && line[..3] == MARKER && (|line| == 3 || line[3] == ' ' || line[3] == '\t' || line[3] == '\r')
  }

  ghost predicate NoMarkerLine(s: string) {
    forall line | line in Split(s, '\n') :: !IsMarker(line)
  }

  /** The groups of lines between marker lines. */
  function Sections(lines: seq<string>): (groups: seq<seq<string>>)
    ensures |groups| >= 1
  {
    if lines == [] then
      [[]]
    else
      var rest := Sections(lines[1..]);
      if IsMarker(lines[0]) then [[]] + rest else [[lines[0]] + rest[0]] + rest[1..]
  }

  function Texts(groups: seq<seq<string>>): (texts: seq<string>)
    ensures |texts| == |groups|
  {
    if groups == [] then [] else [Join(groups[0], '\n')] + Texts(groups[1..])
  }

  /** The lines of a text in which every line ends with a line break. */
  function Lines(text: string): seq<string> {
    var parts := Split(text, '\n');
    parts[..|parts| - 1]
  }

  /** The documents of a text. */
  function Documents(text: string): seq<string> {
    Texts(Sections(Lines(text)))
  }

  function Bodies(docs: seq<string>): (bodies: seq<string>)
    ensures |bodies| == |docs|
  {
    if docs == [] then [] else [Body(docs[0])] + Bodies(docs[1..])
  }

  lemma LinesConcat(a: string, b: string)
    ensures Lines(a + "\n" + b) == Split(a, '\n') + Lines(b)
  {
    SplitConcat(a, b, '\n');
  }

  lemma {:induction false} SectionsConcat(a: seq<string>, marker: string, b: seq<string>)
    requires (forall line | line in a :: !IsMarker(line)) && IsMarker(marker)
    ensures Sections(a + [marker] + b) == [a] + Sections(b)
    decreases |a|
  {
    if a == [] {
      assert (a + [marker] + b)[1..] == b;
    } else {
      assert a[0] in a;
      SectionsConcat(a[1..], marker, b);
      assert (a + [marker] + b)[1..] == a[1..] + [marker] + b;
      assert [a[0]] + a[1..] == a;
    }
  }

  lemma {:induction false} SectionsOfOne(a: seq<string>)
    requires forall line | line in a :: !IsMarker(line)
    ensures Sections(a) == [a]
    decreases |a|
  {
    if a != [] {
      assert a[0] in a;
      SectionsOfOne(a[1..]);
      assert [a[0]] + a[1..] == a;
    }
  }

  /** Joining keeps the documents apart when no body holds a marker line of its own. */
  ghost predicate Separable(docs: seq<string>) {
    forall i | 0 <= i < |docs| :: NoMarkerLine(Body(docs[i]))
  }

  lemma OneDocument(body: string)
    requires NoMarkerLine(body)
    ensures Documents(body + "\n") == [body]
  {
    LinesConcat(body, "");
    assert body + "\n" + "" == body + "\n";
    assert Lines(body + "\n") == Split(body, '\n');
    SectionsOfOne(Split(body, '\n'));
    JoinOfSplit(body, '\n');
    assert [Split(body, '\n')][1..] == [];
  }

  lemma OneMoreDocument(body: string, tail: string)
    requires NoMarkerLine(body)
    ensures Documents(body + "\n" + (MARKER + "\n" + tail)) == [body] + Documents(tail)
  {
    LinesConcat(body, MARKER + "\n" + tail);
    LinesConcat(MARKER, tail);
    assert Split(MARKER, '\n') == [MARKER] by { SplitOfJoin([MARKER], '\n'); }
    var lines := Split(body, '\n');
    assert lines + ([MARKER] + Lines(tail)) == lines + [MARKER] + Lines(tail);
    SectionsConcat(lines, MARKER, Lines(tail));
    JoinOfSplit(body, '\n');
    assert ([lines] + Sections(Lines(tail)))[1..] == Sections(Lines(tail));
  }

  /** The joined text in terms of the bodies. */
  function JoinBodies(bodies: seq<string>): string {
    if |bodies| == 0 then ""
    else if |bodies| == 1 then bodies[0] + "\n"
    else bodies[0] + "\n" + (MARKER + "\n" + JoinBodies(bodies[1..]))
  }

  lemma {:induction false} DocumentsOfBodies(bodies: seq<string>)
    requires bodies != [] && forall b | b in bodies :: NoMarkerLine(b)
    ensures Documents(JoinBodies(bodies)) == bodies
    decreases |bodies|
  {
    assert bodies[0] in bodies;
    if |bodies| == 1 {
      OneDocument(bodies[0]);
    } else {
      OneMoreDocument(bodies[0], JoinBodies(bodies[1..]));
      DocumentsOfBodies(bodies[1..]);
    }
  }

  lemma {:induction false} JoinFromBodies(docs: seq<string>)
    requires docs != [] && "" !in docs
    ensures JoinFrom(docs, true) == JoinBodies(Bodies(docs))
    ensures JoinFrom(docs, false) == MARKER + "\n" + JoinBodies(Bodies(docs))
    decreases |docs|
  {
    var rest := docs[1..];
    assert docs[0] in docs;
    assert Bodies(docs)[1..] == Bodies(rest);
    if rest == [] {
      assert JoinFrom(rest, false) == "";
      assert Body(docs[0]) + "\n" + "" == Body(docs[0]) + "\n";
    } else {
      JoinFromBodies(rest);
    }
    assert JoinFrom(docs, true) == Body(docs[0]) + "\n" + JoinFrom(rest, false);
  }

  lemma {:induction false} BodiesMembers(docs: seq<string>, b: string)
    requires b in Bodies(docs) && Separable(docs)
    ensures NoMarkerLine(b)
    decreases |docs|
  {
    if b != Body(docs[0]) {
      assert Separable(docs[1..]);
      BodiesMembers(docs[1..], b);
    }
  }

  lemma JoinFullDocuments(docs: seq<string>)
    requires docs != [] && "" !in docs && Separable(docs)
    ensures Documents(JoinBodies(Bodies(docs))) == Bodies(docs)
  {
    forall b | b in Bodies(docs) ensures NoMarkerLine(b) {
      BodiesMembers(docs, b);
    }
    DocumentsOfBodies(Bodies(docs));
  }

  /** The documents that are written at all. */
  function Written(docs: seq<string>): (ds: seq<string>)
    ensures "" !in ds
  {
    if docs == [] then [] else (if docs[0] == "" then [] else [docs[0]]) + Written(docs[1..])
  }

  lemma {:induction false} EmptyDocumentsAreSkipped(docs: seq<string>)
    ensures JoinFrom(docs, false) == JoinFrom(Written(docs), false)
    ensures docs != [] && docs[0] != "" ==> Joined(docs) == Joined(Written(docs))
    ensures docs != [] && docs[0] == "" ==> Joined(docs) == JoinFrom(Written(docs), false)
    decreases |docs|
  {
    if docs != [] {
      EmptyDocumentsAreSkipped(docs[1..]);
      if docs[0] == "" {
        assert Written(docs) == Written(docs[1..]);
      } else {
        assert Written(docs)[1..] == Written(docs[1..]);
      }
    }
  }

  lemma OpeningMarker(text: string)
    ensures Documents(MARKER + "\n" + text) == [""] + Documents(text)
  {
    LinesConcat(MARKER, text);
    assert Split(MARKER, '\n') == [MARKER] by { SplitOfJoin([MARKER], '\n'); }
    SectionsConcat([], MARKER, Lines(text));
    assert [] + [MARKER] + Lines(text) == [MARKER] + Lines(text);
    assert ([[]] + Sections(Lines(text)))[1..] == Sections(Lines(text));
  }

  // ---------------------------------------------------------------- counting documents

  function Markers(lines: seq<string>): nat {
    if lines == [] then 0 else (if IsMarker(lines[0]) then 1 else 0) + Markers(lines[1..])
  }

  lemma {:induction false} MarkersConcat(a: seq<string>, b: seq<string>)
    ensures Markers(a + b) == Markers(a) + Markers(b)
    decreases |a|
  {
    if a == [] {
      assert a + b == b;
    } else {
      MarkersConcat(a[1..], b);
      assert (a + b)[1..] == a[1..] + b;
    }
  }

  lemma {:induction false} MarkersAreCounted(lines: seq<string>)
    ensures |Sections(lines)| == Markers(lines) + 1
    ensures Markers(lines) == 0 <==> forall line | line in lines :: !IsMarker(line)
    decreases |lines|
  {
    if lines != [] {
      MarkersAreCounted(lines[1..]);
      assert lines == [lines[0]] + lines[1..];
      assert forall line :: line in lines <==> line == lines[0] || line in lines[1..];
    }
  }

  /** The marker lines inside bodies. */
  function Spare(bodies: seq<string>): nat {
    if bodies == [] then 0 else Markers(Split(bodies[0], '\n')) + Spare(bodies[1..])
  }

  lemma {:induction false} DocumentsAreCounted(bodies: seq<string>)
    requires bodies != []
    ensures Markers(Lines(JoinBodies(bodies))) == |bodies| - 1 + Spare(bodies)
    decreases |bodies|
  {
    var body, rest := bodies[0], bodies[1..];
    if rest == [] {
      LinesConcat(body, "");
      assert body + "\n" + "" == body + "\n";
      assert Lines(body + "\n") == Split(body, '\n');
    } else {
      var tail := JoinBodies(rest);
      LinesConcat(body, MARKER + "\n" + tail);
      LinesConcat(MARKER, tail);
      assert Split(MARKER, '\n') == [MARKER] by { SplitOfJoin([MARKER], '\n'); }
      MarkersConcat(Split(body, '\n'), [MARKER] + Lines(tail));
      MarkersConcat([MARKER], Lines(tail));
      DocumentsAreCounted(rest);
    }
  }

  lemma SeparableCons(docs: seq<string>)
    requires docs != []
    ensures Separable(docs) <==> NoMarkerLine(Body(docs[0])) && Separable(docs[1..])
  {
    if NoMarkerLine(Body(docs[0])) && Separable(docs[1..]) {
      forall i | 0 <= i < |docs| ensures NoMarkerLine(Body(docs[i])) {
        assert i > 0 ==> docs[i] == docs[1..][i - 1];
      }
    }
  }

  lemma {:induction false} SpareIff(docs: seq<string>)
    ensures Spare(Bodies(docs)) == 0 <==> Separable(docs)
    decreases |docs|
  {
    if docs != [] {
      MarkersAreCounted(Split(Body(docs[0]), '\n'));
      SpareIff(docs[1..]);
      SeparableCons(docs);
      assert Bodies(docs)[1..] == Bodies(docs[1..]);
    }
  }

  lemma EmptyBodyIsPlain()
    ensures NoMarkerLine(Body(""))
  {
    assert Body("") == "" && Split("", '\n') == [""];
  }

  lemma {:induction false} WrittenSeparableIff(docs: seq<string>)
    ensures Separable(Written(docs)) <==> Separable(docs)
    decreases |docs|
  {
    if docs != [] {
      WrittenSeparableIff(docs[1..]);
      SeparableCons(docs);
      EmptyBodyIsPlain();
      if docs[0] == "" {
        assert Written(docs) == Written(docs[1..]);
      } else {
        assert Written(docs)[1..] == Written(docs[1..]);
        SeparableCons(Written(docs));
      }
    }
  }

  lemma FullDocumentsIff(docs: seq<string>)
    requires docs != [] && "" !in docs
    ensures Documents(JoinBodies(Bodies(docs))) == Bodies(docs) <==> Separable(docs)
  {
    if Separable(docs) {
      JoinFullDocuments(docs);
    } else {
      SpareIff(docs);
      DocumentsAreCounted(Bodies(docs));
      MarkersAreCounted(Lines(JoinBodies(Bodies(docs))));
    }
  }

  lemma NothingWritten(docs: seq<string>)
    requires docs != [] && Written(docs) == []
    ensures docs[0] == "" && Joined(docs) == "" && Documents("") == [""]
  {
    assert docs[0] == "";
    EmptyDocumentsAreSkipped(docs);
    assert Lines("") == [] && Texts([[]]) == [""] + Texts([]);
  }

  /** The documents of the joined text are the bodies of the documents that were not empty, in order, if and only if no body holds
      a marker line of its own. A first document that is empty leaves its marker behind, which opens the text with an empty
      document. */
  lemma JoinRoundTrip(docs: seq<string>)
    requires docs != []
    ensures Documents(Joined(docs)) == (if docs[0] == "" then [""] else []) + Bodies(Written(docs)) <==> Separable(docs)
  {
    var ds := Written(docs);
    WrittenSeparableIff(docs);
    if ds == [] {
      NothingWritten(docs);
    } else {
      EmptyDocumentsAreSkipped(docs);
      FullDocumentsIff(ds);
      JoinFromBodies(ds);
      var text := JoinBodies(Bodies(ds));
      OpeningMarker(text);
      assert [""] + Documents(text) == [""] + Bodies(ds) <==> Documents(text) == Bodies(ds) by {
        assert ([""] + Documents(text))[1..] == Documents(text) && ([""] + Bodies(ds))[1..] == Bodies(ds);
      }
    }
  }

  // ---------------------------------------------------------------- decorated documents

  ghost predicate Blank(s: string) {
    forall c | c in s :: c in WHITE
  }

  /** Neither end is white. */
  ghost predicate Trimmed(b: string) {
    b != "" ==> b[0] !in WHITE && b[|b| - 1] !in WHITE
  }

  /** A body as it should be: nothing to trim, no marker line. */
  ghost predicate Plain(b: string) {
    b != "" && Trimmed(b) && NoMarkerLine(b)
  }

  lemma MarkerIsFirstLine(b: string)
    requires b == MARKER || LeadingMarker(b, 0, |b|)
    ensures Split(b, '\n')[0] == MARKER
  {
    SplitOfJoin([MARKER], '\n');
    if b != MARKER {
      assert b == MARKER + "\n" + b[4..];
      SplitConcat(MARKER, b[4..], '\n');
    }
  }

  lemma PlainStart(b: string)
    requires NoMarkerLine(b)
    ensures b != MARKER && !LeadingMarker(b, 0, |b|)
  {
    assert !IsMarker(Split(b, '\n')[0]);
    if b == MARKER || LeadingMarker(b, 0, |b|) {
      MarkerIsFirstLine(b);
      assert false;
    }
  }

  ghost predicate BlankIn(s: string, lo: nat, hi: nat) {
    forall k | lo <= k < hi && k < |s| :: IsSpace(s[k])
  }

  lemma {:induction false} SkipSpaceStops(s: string, lo: nat, hi: nat)
    requires lo <= hi <= |s|
    ensures var r := SkipSpace(s, lo, hi); BlankIn(s, lo, r) && (r < hi ==> !IsSpace(s[r]))
    decreases hi - lo
  {
    if lo < hi && IsSpace(s[lo]) {
      SkipSpaceStops(s, lo + 1, hi);
    }
  }

  lemma {:induction false} DropSpaceStops(s: string, lo: nat, hi: nat)
    requires lo <= hi <= |s|
    ensures var r := DropSpace(s, lo, hi); BlankIn(s, r, hi) && (lo < r ==> !IsSpace(s[r - 1]))
    decreases hi
  {
    if lo < hi && IsSpace(s[hi - 1]) {
      DropSpaceStops(s, lo, hi - 1);
    }
  }

  /** Trimming finds the one range that white space surrounds. */
  lemma TrimIs(s: string, r: Range, lo: nat, hi: nat)
    requires r.lo <= lo < hi <= r.hi <= |s|
    requires BlankIn(s, r.lo, lo) && BlankIn(s, hi, r.hi) && !IsSpace(s[lo]) && !IsSpace(s[hi - 1])
    ensures Trim(s, r) == Range(lo, hi)
  {
    SkipSpaceStops(s, r.lo, r.hi);
    DropSpaceStops(s, lo, r.hi);
  }

  lemma TrimStops(s: string, r: Range)
    requires r.lo <= r.hi <= |s|
    ensures var t := Trim(s, r);
            && BlankIn(s, r.lo, t.lo) && BlankIn(s, t.hi, r.hi)
            && (t.lo < t.hi ==> !IsSpace(s[t.lo]) && !IsSpace(s[t.hi - 1]))
  {
    SkipSpaceStops(s, r.lo, r.hi);
    DropSpaceStops(s, SkipSpace(s, r.lo, r.hi), r.hi);
  }

  /** Where everything around a body lies: a leading marker at `a`, the body from `lo` to `hi`, a trailing marker at `e`. */
  ghost predicate Layout(s: string, a: nat, lead: bool, lo: nat, hi: nat, e: nat, trail: bool) {
    && a <= lo < hi <= e <= |s|
    && (lead ==> LeadingMarker(s, a, lo))
    && (trail ==> e + 3 <= |s| && Dashes(s, e))
    && BlankIn(s, 0, a) && BlankIn(s, if lead then a + 4 else a, lo)
    && BlankIn(s, hi, e) && BlankIn(s, if trail then e + 3 else e, |s|)
    && !IsSpace(s[lo]) && !IsSpace(s[hi - 1])
  }

  /** The body itself is not taken for a marker. */
  ghost predicate Unmarked(s: string, lo: nat, hi: nat, trail: bool)
    requires lo <= hi <= |s|
  {
    && !(hi == lo + 3 && Dashes(s, lo))
    && !LeadingMarker(s, lo, hi)
    && (trail || !TrailingMarker(s, lo, hi))
  }

  lemma LayoutTrims(s: string, a: nat, lead: bool, lo: nat, hi: nat, e: nat, trail: bool)
    requires Layout(s, a, lead, lo, hi, e, trail)
    ensures Trim(s, Range(0, |s|)) == Range(if lead then a else lo, if trail then e + 3 else hi)
  {
    TrimIs(s, Range(0, |s|), if lead then a else lo, if trail then e + 3 else hi);
  }

  lemma LayoutCuts(s: string, a: nat, lead: bool, lo: nat, hi: nat, e: nat, trail: bool)
    requires Layout(s, a, lead, lo, hi, e, trail) && Unmarked(s, lo, hi, trail)
    ensures CutMarkers(s, Range(if lead then a else lo, if trail then e + 3 else hi))
            == Range(if lead then a + 4 else lo, if trail then e else hi)
  {
  }

  lemma LayoutBounds(s: string, a: nat, lead: bool, lo: nat, hi: nat, e: nat, trail: bool)
    requires Layout(s, a, lead, lo, hi, e, trail) && Unmarked(s, lo, hi, trail)
    ensures Bounds(s) == Range(lo, hi)
  {
    LayoutTrims(s, a, lead, lo, hi, e, trail);
    LayoutCuts(s, a, lead, lo, hi, e, trail);
    TrimIs(s, Range(if lead then a + 4 else lo, if trail then e else hi), lo, hi);
  }

  function Front(w1: string, lead: bool, w2: string): string {
    if lead then w1 + (MARKER + "\n") + w2 else w1 + w2
  }

  function Back(w3: string, trail: bool, w4: string): string {
    if trail then w3 + MARKER + w4 else w3 + w4
  }

  lemma FrontLayout(w1: string, lead: bool, w2: string, rest: string)
    requires Blank(w1) && Blank(w2)
    ensures var s, a, lo := Front(w1, lead, w2) + rest, |w1|, |Front(w1, lead, w2)|;
            && a <= lo && BlankIn(s, 0, a) && BlankIn(s, if lead then a + 4 else a, lo)
            && (lead ==> LeadingMarker(s, a, lo))
  {
    forall c {
      SpaceIsWhite(c);
    }
    var x := Front(w1, lead, w2);
    var n := if lead then |w1| + 4 else |w1|;
    assert forall k | 0 <= k < |w1| :: x[k] == w1[k] && w1[k] in w1;
    assert forall k | n <= k < |x| :: x[k] == w2[k - n] && w2[k - n] in w2;
    assert forall k | 0 <= k < |x| :: (x + rest)[k] == x[k];
    if lead {
      assert x[|w1|..n] == MARKER + "\n";
      assert x[|w1|] == x[|w1|..n][0] && x[|w1| + 1] == x[|w1|..n][1] && x[|w1| + 2] == x[|w1|..n][2] && x[n - 1] == x[|w1|..n][3];
    }
  }

  lemma BackLayout(front: string, w3: string, trail: bool, w4: string)
    requires Blank(w3) && Blank(w4)
    ensures var s, hi, e := front + Back(w3, trail, w4), |front|, |front| + |w3|;
            && e <= |s| && BlankIn(s, hi, e) && BlankIn(s, if trail then e + 3 else e, |s|)
            && (trail ==> e + 3 <= |s| && Dashes(s, e))
  {
    forall c {
      SpaceIsWhite(c);
    }
    var y := Back(w3, trail, w4);
    var n := if trail then |w3| + 3 else |w3|;
    assert forall k | 0 <= k < |w3| :: y[k] == w3[k] && w3[k] in w3;
    assert forall k | n <= k < |y| :: y[k] == w4[k - n] && w4[k - n] in w4;
    assert forall k | |front| <= k < |front + y| :: (front + y)[k] == y[k - |front|];
    if trail {
      assert y[|w3|..n] == MARKER;
      assert y[|w3|] == y[|w3|..n][0] && y[|w3| + 1] == y[|w3|..n][1] && y[|w3| + 2] == y[|w3|..n][2];
    }
  }

  lemma PlainIsUnmarked(s: string, lo: nat, hi: nat, b: string, trail: bool)
    requires lo <= hi <= |s| && s[lo..hi] == b && Plain(b) && (trail || !TrailingMarker(b, 0, |b|))
    ensures Unmarked(s, lo, hi, trail)
  {
    PlainStart(b);
    assert forall k | lo <= k < hi :: s[k] == b[k - lo];
    assert b == MARKER <==> |b| == 3 && Dashes(b, 0);
  }

  lemma DecoratedLayout(w1: string, lead: bool, w2: string, b: string, w3: string, trail: bool, w4: string)
    requires Blank(w1) && Blank(w2) && Blank(w3) && Blank(w4) && b != "" && Trimmed(b)
    ensures var x, y := Front(w1, lead, w2), Back(w3, trail, w4);
            var s, lo, hi := x + b + y, |x|, |x| + |b|;
            s[lo..hi] == b && Layout(s, |w1|, lead, lo, hi, hi + |w3|, trail)
  {
    var x, y := Front(w1, lead, w2), Back(w3, trail, w4);
    var s := x + b + y;
    var lo, hi := |x|, |x| + |b|;
    SpaceIsWhite(b[0]);
    SpaceIsWhite(b[|b| - 1]);
    FrontLayout(w1, lead, w2, b + y);
    assert x + (b + y) == s;
    BackLayout(x + b, w3, trail, w4);
    assert s[lo..hi] == b;
    assert s[lo] == b[0] && s[hi - 1] == b[|b| - 1];
  }

  /** White space around a body and around one marker on either side does not matter. */
  lemma Decorated(w1: string, lead: bool, w2: string, b: string, w3: string, trail: bool, w4: string)
    requires Blank(w1) && Blank(w2) && Blank(w3) && Blank(w4) && Plain(b)
    requires trail || !TrailingMarker(b, 0, |b|)
    ensures Body(Front(w1, lead, w2) + b + Back(w3, trail, w4)) == b
  {
    var x, y := Front(w1, lead, w2), Back(w3, trail, w4);
    var s, lo, hi := x + b + y, |x|, |x| + |b|;
    DecoratedLayout(w1, lead, w2, b, w3, trail, w4);
    PlainIsUnmarked(s, lo, hi, b, trail);
    LayoutBounds(s, |w1|, lead, lo, hi, hi + |w3|, trail);
  }

  lemma BlankText(s: string, lo: nat, hi: nat)
    requires lo <= hi <= |s| && BlankIn(s, lo, hi)
    ensures Blank(s[lo..hi])
  {
    forall c | c in s[lo..hi] ensures c in WHITE {
      var k :| 0 <= k < hi - lo && s[lo..hi][k] == c;
      assert s[lo + k] == c;
      SpaceIsWhite(c);
    }
  }

  lemma TrimmedText(s: string, lo: nat, hi: nat)
    requires lo <= hi <= |s| && (lo < hi ==> !IsSpace(s[lo]) && !IsSpace(s[hi - 1]))
    ensures Trimmed(s[lo..hi])
  {
    if lo < hi {
      SpaceIsWhite(s[lo]);
      SpaceIsWhite(s[hi - 1]);
    }
  }

  lemma MarkersText(s: string, r: Range) returns (lead: bool, trail: bool)
    requires r.lo <= r.hi <= |s|
    ensures var t := CutMarkers(s, r);
            && s[r.lo..t.lo] == (if lead then MARKER + "\n" else "")
            && s[t.hi..r.hi] == (if trail then MARKER else "")
  {
    var t := CutMarkers(s, r);
    lead, trail := LeadingMarker(s, r.lo, r.hi), TrailingMarker(s, t.lo, r.hi);
    if lead {
      assert s[r.lo..t.lo] == ['-', '-', '-', '\n'];
    } else {
      assert s[r.lo..t.lo] == "";
    }
    if trail {
      assert s[t.hi..r.hi] == ['-', '-', '-'];
    } else {
      assert s[t.hi..r.hi] == "";
    }
  }

  lemma FrontText(s: string, a: nat, b: nat, c: nat, lead: bool)
    requires a <= b <= c <= |s| && s[a..b] == if lead then MARKER + "\n" else ""
    ensures s[..c] == Front(s[..a], lead, s[b..c])
  {
    assert s[..c] == s[..a] + s[a..b] + s[b..c];
    assert s[..a] + "" == s[..a];
  }

  lemma BackText(s: string, a: nat, b: nat, c: nat, trail: bool)
    requires a <= b <= c <= |s| && s[b..c] == if trail then MARKER else ""
    ensures s[a..] == Back(s[a..b], trail, s[c..])
  {
    assert s[a..] == s[a..b] + s[b..c] + s[c..];
    assert s[a..b] + "" == s[a..b];
  }

  lemma CutText(s: string, o: Range, n: Range, r: Range, lead: bool, trail: bool)
    requires o.lo <= n.lo <= r.lo <= r.hi <= n.hi <= o.hi <= |s|
    requires s[o.lo..n.lo] == (if lead then MARKER + "\n" else "") && s[n.hi..o.hi] == (if trail then MARKER else "")
    ensures s == Front(s[..o.lo], lead, s[n.lo..r.lo]) + s[r.lo..r.hi] + Back(s[r.hi..n.hi], trail, s[o.hi..])
  {
    FrontText(s, o.lo, n.lo, r.lo, lead);
    BackText(s, r.hi, n.hi, o.hi, trail);
    assert s == s[..r.lo] + s[r.lo..r.hi] + s[r.hi..];
  }

  lemma CutIsBlank(s: string, o: Range, n: Range, r: Range)
    requires o.lo <= n.lo <= r.lo <= r.hi <= n.hi <= o.hi <= |s|
    requires BlankIn(s, 0, o.lo) && BlankIn(s, n.lo, r.lo) && BlankIn(s, r.hi, n.hi) && BlankIn(s, o.hi, |s|)
    ensures Blank(s[..o.lo]) && Blank(s[n.lo..r.lo]) && Blank(s[r.hi..n.hi]) && Blank(s[o.hi..])
  {
    BlankText(s, 0, o.lo);
    BlankText(s, n.lo, r.lo);
    BlankText(s, r.hi, n.hi);
    BlankText(s, o.hi, |s|);
    assert s[0..o.lo] == s[..o.lo] && s[o.hi..|s|] == s[o.hi..];
  }

  /** What joining cuts off a document: white space, at most one marker line in front and at most one marker behind, and white
      space around these. What is left has nothing white at its ends. */
  lemma BodyIsCut(s: string) returns (w1: string, lead: bool, w2: string, w3: string, trail: bool, w4: string)
    ensures Blank(w1) && Blank(w2) && Blank(w3) && Blank(w4)
    ensures s == Front(w1, lead, w2) + Body(s) + Back(w3, trail, w4)
    ensures Trimmed(Body(s))
  {
    var o := Trim(s, Range(0, |s|));
    var n := CutMarkers(s, o);
    var r := Trim(s, n);
    TrimStops(s, Range(0, |s|));
    TrimStops(s, n);
    TrimmedText(s, r.lo, r.hi);
    lead, trail := MarkersText(s, o);
    CutIsBlank(s, o, n, r);
    CutText(s, o, n, r, lead, trail);
    w1, w2, w3, w4 := s[..o.lo], s[n.lo..r.lo], s[r.hi..n.hi], s[o.hi..];
  }
}

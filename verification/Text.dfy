/** Splitting and joining of strings at one separator character, as Go's `strings` package does it. */
module Text {

  /** The parts of `s` between separators; there is always at least one part. */
  function Split(s: string, sep: char): (parts: seq<string>)
    ensures |parts| >= 1
  {
    if s == "" then
      [""]
    else
      var rest := Split(s[1..], sep);
      if s[0] == sep then [""] + rest else [[s[0]] + rest[0]] + rest[1..]
  }

  function Join(parts: seq<string>, sep: char): string
  {
    if |parts| == 0 then
      ""
    else if |parts| == 1 then
      parts[0]
    else
      parts[0] + [sep] + Join(parts[1..], sep)
  }

  lemma JoinCons(first: string, rest: seq<string>, sep: char)
    requires rest != []
    ensures Join([first] + rest, sep) == first + [sep] + Join(rest, sep)
  {
    assert ([first] + rest)[1..] == rest;
  }

  ghost predicate Free(s: string, c: char) {
    c !in s
  }

  lemma JoinStartsWithFirst(parts: seq<string>, sep: char)
    requires |parts| >= 1 && parts[0] != ""
    ensures var s := Join(parts, sep);
            s != "" && s[0] == parts[0][0] && s[1..] == Join([parts[0][1..]] + parts[1..], sep)
  {
    var shorter := [parts[0][1..]] + parts[1..];
    assert shorter[1..] == parts[1..];
  }

  lemma {:induction false} SplitOfJoin(parts: seq<string>, sep: char)
    requires |parts| >= 1
    requires forall p | p in parts :: Free(p, sep)
    ensures Split(Join(parts, sep), sep) == parts
    decreases |parts|, if |parts| > 0 then |parts[0]| else 0
  {
    var s := Join(parts, sep);
    if parts[0] != "" {
      var shorter := [parts[0][1..]] + parts[1..];
      assert Free(shorter[0], sep) by {
        assert Free(parts[0], sep);
      }
      JoinStartsWithFirst(parts, sep);
      SplitOfJoin(shorter, sep);
      assert s[0] in parts[0] && Free(parts[0], sep);
      assert [s[0]] + shorter[0] == parts[0] && shorter[1..] == parts[1..];
    } else if |parts| > 1 {
      assert s[1..] == Join(parts[1..], sep);
      SplitOfJoin(parts[1..], sep);
    }
  }

  lemma {:induction false} JoinOfSplit(s: string, sep: char)
    ensures Join(Split(s, sep), sep) == s
    ensures forall p | p in Split(s, sep) :: Free(p, sep)
  {
    if s != "" {
      var rest := Split(s[1..], sep);
      JoinOfSplit(s[1..], sep);
      if s[0] == sep {
        assert ([""] + rest)[1..] == rest;
      } else {
        var first := [s[0]] + rest[0];
        assert ([first] + rest[1..])[1..] == rest[1..];
        assert Free(rest[0], sep);
      }
    }
  }

  /** Joining is injective on lists of equal length whose parts do not hold the separator. */
  lemma JoinInjective(a: seq<string>, b: seq<string>, sep: char)
    requires |a| >= 1 && |b| >= 1
    requires forall p | p in a :: Free(p, sep)
    requires forall p | p in b :: Free(p, sep)
    requires Join(a, sep) == Join(b, sep)
    ensures a == b
  {
    SplitOfJoin(a, sep);
    SplitOfJoin(b, sep);
  }

  lemma FirstPartGrows(c: char, parts: seq<string>, more: seq<string>)
    requires |parts| >= 1
    ensures [[c] + (parts + more)[0]] + (parts + more)[1..] == [[c] + parts[0]] + parts[1..] + more
  {
    assert (parts + more)[1..] == parts[1..] + more;
  }

  lemma {:induction false} SplitConcat(a: string, b: string, sep: char)
    ensures Split(a + [sep] + b, sep) == Split(a, sep) + Split(b, sep)
    decreases |a|
  {
    var s := a + [sep] + b;
    if a == "" {
      assert s[0] == sep && s[1..] == b;
    } else {
      assert s[0] == a[0] && s[1..] == a[1..] + [sep] + b;
      SplitConcat(a[1..], b, sep);
      if a[0] != sep {
        FirstPartGrows(a[0], Split(a[1..], sep), Split(b, sep));
      }
    }
  }
}

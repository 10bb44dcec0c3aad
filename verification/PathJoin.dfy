/** Joining a path from an archive below a root, on slash-separated paths as on Unix. */
module PathJoin {
  import opened Model
  import opened Text

  // ---------------------------------------------------------------- cleaning

  /** The shortest equivalent of a sequence of segments: each `..` takes the segment before it away if there is one to take. */
  function Reduce(rooted: bool, done: seq<string>, rest: seq<string>): seq<string>
    decreases |rest|
  {
    if rest == [] then
      done
    else if rest[0] == "" || rest[0] == "." then
      Reduce(rooted, done, rest[1..])
    else if rest[0] != ".." then
      Reduce(rooted, done + [rest[0]], rest[1..])
    else if done != [] && done[|done| - 1] != ".." then
      Reduce(rooted, done[..|done| - 1], rest[1..])
    else if rooted then
      Reduce(rooted, done, rest[1..])
    else
      Reduce(rooted, done + [".."], rest[1..])
  }

  predicate IsAbs(path: string) {
    path != "" && path[0] == '/'
  }

  /** The segments of a path after cleaning. */
  function Segments(path: string): seq<string> {
    Reduce(IsAbs(path), [], Split(path, '/'))
  }

  function Clean(path: string): string {
    var segments := Segments(path);
    if IsAbs(path) then "/" + Join(segments, '/')
    else if segments == [] then "."
    else Join(segments, '/')
  }

  /** Joins two elements, skipping empty ones. */
  function JoinPaths(a: string, b: string): string {
    if a == "" && b == "" then ""
    else if a == "" then Clean(b)
    else if b == "" then Clean(a)
    else Clean(a + "/" + b)
  }

  // ---------------------------------------------------------------- the checked join

  function Slashed(path: string): (p: string)
    ensures |p| == |path|
    ensures forall i | 0 <= i < |path| :: p[i] == if path[i] == '\\' then '/' else path[i]
  {
    seq(|path|, i requires 0 <= i < |path| => if path[i] == '\\' then '/' else path[i])
  }

  method CleanFilePathJoin(root: string, destDir: string) returns (r: Option<string>)
    ensures r.Some? <==> Allowed(destDir)
    ensures r.Some? ==> r.value == JoinPaths(root, Clean(Slashed(destDir)))
    ensures r.Some? ==> IsAbs(r.value) == IsAbs(root)
    ensures r.Some? ==> Segments(r.value) == Segments(root) + Keep(Split(Slashed(destDir), '/'))
    ensures r.Some? ==> Tidy(r.value)
  {
    if ':' in destDir {
      return None;
    }
    var path := Slashed(destDir);
    var parts := Split(path, '/');
    for n := 0 to |parts|
      invariant ".." !in parts[..n]
    {
      if parts[n] == ".." {
        return None;
      }
      assert parts[..n + 1] == parts[..n] + [parts[n]];
    }
    assert parts[..|parts|] == parts;
    if IsAbs(path) {
      return None;
    }
    JoinStaysBelow(root, destDir);
    AllowedClean(destDir);
    CleanIsTidy(if root == "" then Clean(path) else root + "/" + Clean(path));
    r := Some(JoinPaths(root, Clean(path)));
  }

  /** What is not refused. */
  ghost predicate Allowed(destDir: string) {
    ':' !in destDir && ".." !in Split(Slashed(destDir), '/') && !IsAbs(Slashed(destDir))
  }

  // ---------------------------------------------------------------- containment

  /** The segments that name something. */
  function Keep(parts: seq<string>): seq<string> {
    if parts == [] then []
    else (if parts[0] == "" || parts[0] == "." then [] else [parts[0]]) + Keep(parts[1..])
  }

  lemma {:induction false} ReduceWithoutDots(rooted: bool, done: seq<string>, rest: seq<string>)
    requires ".." !in rest
    ensures Reduce(rooted, done, rest) == done + Keep(rest)
    decreases |rest|
  {
    if rest != [] {
      assert rest[0] != "..";
      if rest[0] == "" || rest[0] == "." {
        ReduceWithoutDots(rooted, done, rest[1..]);
      } else {
        ReduceWithoutDots(rooted, done + [rest[0]], rest[1..]);
      }
    }
  }

  lemma {:induction false} ReduceConcat(rooted: bool, done: seq<string>, a: seq<string>, b: seq<string>)
    ensures Reduce(rooted, done, a + b) == Reduce(rooted, Reduce(rooted, done, a), b)
    decreases |a|
  {
    if a == [] {
      assert a + b == b;
    } else {
      assert (a + b)[1..] == a[1..] + b;
      if a[0] == "" || a[0] == "." {
        ReduceConcat(rooted, done, a[1..], b);
      } else if a[0] != ".." {
        ReduceConcat(rooted, done + [a[0]], a[1..], b);
      } else if done != [] && done[|done| - 1] != ".." {
        ReduceConcat(rooted, done[..|done| - 1], a[1..], b);
      } else if rooted {
        ReduceConcat(rooted, done, a[1..], b);
      } else {
        ReduceConcat(rooted, done + [".."], a[1..], b);
      }
    }
  }

  /** What `..` does: it takes back the step before it, stays at the root, and is kept where a relative path leaves its start. */
  lemma UpTakesBack(rooted: bool, done: seq<string>, name: string, rest: seq<string>)
    requires name != "" && name != "." && name != ".."
    ensures Reduce(rooted, done, [name, ".."] + rest) == Reduce(rooted, done, rest)
    ensures Reduce(true, [], [".."] + rest) == Reduce(true, [], rest)
    ensures Reduce(false, [], [".."] + rest) == Reduce(false, [".."], rest)
    ensures done != [] && done[|done| - 1] == ".." ==> Reduce(false, done, [".."] + rest) == Reduce(false, done + [".."], rest)
  {
    assert ([name, ".."] + rest)[1..] == [".."] + rest && ([".."] + rest)[1..] == rest;
    assert (done + [name])[..|done|] == done;
    assert [] + [".."] == [".."];
  }

  ghost predicate Proper(segment: string) {
    segment != "" && segment != "." && Free(segment, '/')
  }

  /** Segments that cleaning leaves alone: `..` only in front, and never below a root. */
  ghost predicate Reduced(rooted: bool, segments: seq<string>) {
    && (forall i | 0 <= i < |segments| :: Proper(segments[i]))
    && (forall i | 0 <= i < |segments| && segments[i] == ".." ::
          !rooted && forall j | 0 <= j < i :: segments[j] == "..")
  }

  lemma {:induction false} ReduceGivesReduced(rooted: bool, done: seq<string>, rest: seq<string>)
    requires Reduced(rooted, done) && forall p | p in rest :: Free(p, '/')
    ensures Reduced(rooted, Reduce(rooted, done, rest))
    decreases |rest|
  {
    if rest != [] {
      assert rest[0] in rest;
      if rest[0] == "" || rest[0] == "." {
        ReduceGivesReduced(rooted, done, rest[1..]);
      } else if rest[0] != ".." {
        ReduceGivesReduced(rooted, done + [rest[0]], rest[1..]);
      } else if done != [] && done[|done| - 1] != ".." {
        ReduceGivesReduced(rooted, done[..|done| - 1], rest[1..]);
      } else if rooted {
        ReduceGivesReduced(rooted, done, rest[1..]);
      } else {
        ReduceGivesReduced(rooted, done + [".."], rest[1..]);
      }
    }
  }

  lemma {:induction false} ReducedStays(rooted: bool, done: seq<string>, rest: seq<string>)
    requires Reduced(rooted, done + rest)
    ensures Reduce(rooted, done, rest) == done + rest
    decreases |rest|
  {
    if rest == [] {
      assert done + rest == done;
    } else {
      assert (done + rest)[|done|] == rest[0];
      assert done != [] ==> (done + rest)[|done| - 1] == done[|done| - 1];
      assert done + [rest[0]] + rest[1..] == done + rest;
      ReducedStays(rooted, done + [rest[0]], rest[1..]);
    }
  }

  lemma SegmentsReduced(path: string)
    ensures Reduced(IsAbs(path), Segments(path))
  {
    JoinOfSplit(path, '/');
    ReduceGivesReduced(IsAbs(path), [], Split(path, '/'));
  }

  lemma JoinStartsProperly(segments: seq<string>)
    requires segments != [] && Proper(segments[0])
    ensures !IsAbs(Join(segments, '/')) && Join(segments, '/') != ""
  {
    assert Join(segments, '/')[0] == segments[0][0];
    assert segments[0][0] in segments[0];
  }

  lemma RelativeText(segments: seq<string>)
    requires segments != [] && Reduced(false, segments)
    ensures !IsAbs(Join(segments, '/')) && Segments(Join(segments, '/')) == segments
  {
    JoinStartsProperly(segments);
    SplitOfJoin(segments, '/');
    assert [] + segments == segments;
    ReducedStays(false, [], segments);
  }

  lemma RootedText(segments: seq<string>)
    requires Reduced(true, segments)
    ensures Segments("/" + Join(segments, '/')) == segments
  {
    var text := Join(segments, '/');
    assert "" + ['/'] + text == "/" + text;
    SplitConcat("", text, '/');
    ReduceConcat(true, [], [""], Split(text, '/'));
    assert Reduce(true, [], [""]) == [] by { assert [""][1..] == []; }
    if segments == [] {
      assert Split(text, '/') == [""];
    } else {
      SplitOfJoin(segments, '/');
      assert [] + segments == segments;
      ReducedStays(true, [], segments);
    }
  }

  lemma DotNamesNothing()
    ensures Split(".", '/') == ["."] && Segments(".") == []
  {
    SplitOfJoin(["."], '/');
    assert ["."][1..] == [];
  }

  /** Cleaning keeps what a path names. */
  lemma CleanKeepsSegments(path: string)
    ensures IsAbs(Clean(path)) == IsAbs(path) && Segments(Clean(path)) == Segments(path)
  {
    SegmentsReduced(path);
    if IsAbs(path) {
      RootedText(Segments(path));
    } else if Segments(path) == [] {
      DotNamesNothing();
    } else {
      RelativeText(Segments(path));
    }
  }

  /** The shortest text for what it names: after the slash of an absolute path, every part names something. */
  ghost predicate Tidy(path: string) {
    path == "." || path == "/" || AllNamed(Split(if IsAbs(path) then path[1..] else path, '/'))
  }

  ghost predicate AllNamed(parts: seq<string>) {
    forall p | p in parts :: p != "" && p != "."
  }

  lemma CleanIsTidy(path: string)
    ensures Tidy(Clean(path)) && Clean(Clean(path)) == Clean(path)
  {
    var segments := Segments(path);
    SegmentsReduced(path);
    CleanKeepsSegments(path);
    if segments != [] {
      SplitOfJoin(segments, '/');
      JoinStartsProperly(segments);
      assert IsAbs(path) ==> Clean(path)[1..] == Join(segments, '/');
      assert Split(Join(segments, '/'), '/') == segments;
    }
  }

  lemma {:induction false} KeepProper(parts: seq<string>)
    requires forall p | p in parts :: Free(p, '/')
    requires ".." !in parts
    ensures forall p | p in Keep(parts) :: Proper(p) && p != ".."
    ensures Keep(Keep(parts)) == Keep(parts)
    decreases |parts|
  {
    if parts != [] {
      assert parts[0] in parts;
      KeepProper(parts[1..]);
      if parts[0] == "" || parts[0] == "." {
        assert Keep(parts) == Keep(parts[1..]);
      } else {
        assert Keep(parts)[1..] == Keep(parts[1..]);
      }
    }
  }

  /** An allowed path is cleaned to its named segments. */
  lemma AllowedClean(destDir: string)
    requires Allowed(destDir)
    ensures var c, kept := Clean(Slashed(destDir)), Keep(Split(Slashed(destDir), '/'));
            c != "" && !IsAbs(c) && ".." !in Split(c, '/') && Keep(Split(c, '/')) == kept
  {
    var path := Slashed(destDir);
    var parts := Split(path, '/');
    var kept := Keep(parts);
    JoinOfSplit(path, '/');
    ReduceWithoutDots(false, [], parts);
    KeepProper(parts);
    assert Segments(path) == kept;
    if kept == [] {
      DotNamesNothing();
    } else {
      SplitOfJoin(kept, '/');
      JoinStartsProperly(kept);
    }
  }

  /** The joined path lies at or below the root: its segments are those of the root and then the named ones of the path. */
  lemma JoinStaysBelow(root: string, destDir: string)
    requires Allowed(destDir)
    ensures var r, kept := JoinPaths(root, Clean(Slashed(destDir))), Keep(Split(Slashed(destDir), '/'));
            && IsAbs(r) == IsAbs(root)
            && Segments(r) == Segments(root) + kept
            && ".." !in kept
  {
    var c, kept := Clean(Slashed(destDir)), Keep(Split(Slashed(destDir), '/'));
    AllowedClean(destDir);
    KeptHasNoDots(destDir);
    if root == "" {
      CleanKeepsSegments(c);
      ReduceWithoutDots(false, [], Split(c, '/'));
      assert Segments("") == [] by { assert [""][1..] == []; }
    } else {
      var path := root + "/" + c;
      CleanKeepsSegments(path);
      SplitConcat(root, c, '/');
      ReduceConcat(IsAbs(root), [], Split(root, '/'), Split(c, '/'));
      ReduceWithoutDots(IsAbs(root), Segments(root), Split(c, '/'));
    }
  }

  lemma KeptHasNoDots(destDir: string)
    requires Allowed(destDir)
    ensures ".." !in Keep(Split(Slashed(destDir), '/'))
  {
    JoinOfSplit(Slashed(destDir), '/');
    KeepProper(Split(Slashed(destDir), '/'));
  }
}

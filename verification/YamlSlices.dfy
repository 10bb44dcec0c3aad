/** Joining documents that are byte slices: the line break appended to a body lands in the memory the body was cut from. */
module YamlSlices {
  import opened Model
  import opened YamlJoin
  import opened YamlMemory

  /** The position behind the body of a document, if it has a body. */
  function Behind(doc: string): Option<nat> {
    var r := Bounds(doc);
    if r.lo < r.hi then Some(r.hi) else None
  }

  function Touched(doc: string): (d: string)
    ensures |d| == |doc|
  {
    Appended(doc, Behind(doc))
  }

  /** The text that one document adds. */
  function Piece(doc: string, first: bool): string {
    if doc == "" then "" else (if first then "" else MARKER + "\n") + (Body(doc) + "\n")
  }

  function PiecesFrom(docs: seq<string>, first: bool): (ps: seq<string>)
    ensures |ps| == |docs|
  {
    if docs == [] then [] else [Piece(docs[0], first)] + PiecesFrom(docs[1..], false)
  }

  function Concat(ps: seq<string>): string {
    if ps == [] then "" else ps[0] + Concat(ps[1..])
  }

  lemma {:induction false} ConcatAppend(ps: seq<string>, p: string)
    ensures Concat(ps + [p]) == Concat(ps) + p
    decreases |ps|
  {
    if ps == [] {
      assert [p][1..] == [];
    } else {
      ConcatAppend(ps[1..], p);
      assert (ps + [p])[1..] == ps[1..] + [p];
    }
  }

  lemma ConcatNext(ps: seq<string>, n: nat, p: string)
    requires n < |ps| && ps[n] == p
    ensures Concat(ps[..n + 1]) == Concat(ps[..n]) + p
  {
    ConcatAppend(ps[..n], ps[n]);
    assert ps[..n] + [ps[n]] == ps[..n + 1];
  }

  lemma {:induction false} PiecesAreJoined(docs: seq<string>, first: bool)
    ensures Concat(PiecesFrom(docs, first)) == JoinFrom(docs, first)
    decreases |docs|
  {
    if docs != [] {
      var p, ps := Piece(docs[0], first), PiecesFrom(docs[1..], false);
      assert ([p] + ps)[1..] == ps;
      PiecesAreJoined(docs[1..], false);
    }
  }

  lemma {:induction false} PieceAt(docs: seq<string>, first: bool, i: nat)
    requires i < |docs|
    ensures PiecesFrom(docs, first)[i] == Piece(docs[i], first && i == 0)
    decreases |docs|
  {
    if i > 0 {
      PieceAt(docs[1..], false, i - 1);
    }
  }

  // ---------------------------------------------------------------- on the heap

  ghost function Buffers(docs: seq<Slice>): (bs: set<Buffer>)
    ensures forall i | 0 <= i < |docs| :: docs[i].buffer in bs
  {
    set doc | doc in docs :: doc.buffer
  }

  ghost function Snapshot(bs: set<Buffer>): (mem: Memory)
    reads bs
    ensures mem.Keys == bs && forall b | b in bs :: mem[b] == b.bytes
  {
    map b | b in bs :: b.bytes
  }

  /** What a document in its buffer adds to the text, and what that leaves in the buffer. */
  ghost predicate Adds(doc: Slice, bytes: string, i: int, piece: string, after: string) {
    && doc.start + doc.len <= |bytes|
    && var view := bytes[doc.start..doc.start + doc.len];
    && piece == Piece(view, i == 0)
    && after == Appended(bytes, Position(Behind, doc.start, view))
  }

  /** Trims a document and appends a line break to what is left of it, in place where there is room. */
  method TrimAndAppend(doc: Slice) returns (text: string)
    requires doc.start + doc.len <= |doc.buffer.bytes|
    modifies doc.buffer
    ensures var view := old(doc.buffer.bytes)[doc.start..doc.start + doc.len];
            && text == Body(view) + "\n"
            && doc.buffer.bytes == Appended(old(doc.buffer.bytes), Position(Behind, doc.start, view))
  {
    var view := doc.buffer.bytes[doc.start..doc.start + doc.len];
    var r := Bounds(view);
    text := view[r.lo..r.hi] + "\n";
    if r.lo < r.hi && doc.start + r.hi < |doc.buffer.bytes| {
      doc.buffer.Put(doc.start + r.hi, '\n');
    }
  }

  lemma EmptyDocument(bytes: string, start: nat, first: bool)
    ensures Piece("", first) == "" && Appended(bytes, Position(Behind, start, "")) == bytes
  {
  }

  method AddDocument(res: string, doc: Slice, i: nat, ghost bytes: string, ghost piece: string, ghost after: string)
      returns (longer: string)
    requires doc.buffer.bytes == bytes && Adds(doc, bytes, i, piece, after)
    modifies doc.buffer
    ensures longer == res + piece
    ensures doc.buffer.bytes == after
  {
    longer := res;
    if doc.len == 0 {
      EmptyDocument(bytes, doc.start, i == 0);
      assert bytes[doc.start..doc.start + doc.len] == "";
      return;
    }
    var separator := if i > 0 then MARKER + "\n" else "";
    longer := longer + separator;
    var text := TrimAndAppend(doc);
    longer := longer + text;
    assert longer == res + (separator + text);
  }

  lemma StageAdds(docs: seq<Slice>, ms: seq<Memory>, n: nat)
    requires Stages(Behind, docs, ms) && n < |docs|
    ensures AllFit(docs, ms[n]) && docs[n].buffer in ms[n + 1]
    ensures Adds(docs[n], ms[n][docs[n].buffer], n, PiecesFrom(Read(docs, ms), true)[n], ms[n + 1][docs[n].buffer])
    ensures ms[n + 1] == ms[n][docs[n].buffer := ms[n + 1][docs[n].buffer]]
  {
    PieceAt(Read(docs, ms), true, n);
    assert Read(docs, ms)[n] == View(docs[n], ms[n]);
  }

  /** One document, seen from the whole memory. */
  ghost predicate Turns(doc: Slice, n: int, mem: Memory, piece: string, mem': Memory) {
    && doc.buffer in mem && doc.buffer in mem'
    && Adds(doc, mem[doc.buffer], n, piece, mem'[doc.buffer])
    && mem' == mem[doc.buffer := mem'[doc.buffer]]
  }

  ghost predicate Plan(docs: seq<Slice>, ms: seq<Memory>, pieces: seq<string>) {
    && |ms| == |docs| + 1 && |pieces| == |docs|
    && forall n | 0 <= n < |docs| :: Turns(docs[n], n, ms[n], pieces[n], ms[n + 1])
  }

  method AddNext(res: string, docs: seq<Slice>, n: nat, ghost piece: string, ghost mem': Memory) returns (longer: string)
    requires n < |docs| && Turns(docs[n], n, Snapshot(Buffers(docs)), piece, mem')
    modifies docs[n].buffer
    ensures longer == res + piece && Snapshot(Buffers(docs)) == mem'
  {
    ghost var mem := Snapshot(Buffers(docs));
    longer := AddDocument(res, docs[n], n, mem[docs[n].buffer], piece, mem'[docs[n].buffer]);
    assert Snapshot(Buffers(docs)) == mem[docs[n].buffer := mem'[docs[n].buffer]];
  }

  /** The loop over the documents. */
  method Write(docs: seq<Slice>, ghost ms: seq<Memory>, ghost pieces: seq<string>) returns (res: string)
    requires Plan(docs, ms, pieces) && ms[0] == Snapshot(Buffers(docs))
    modifies Buffers(docs)
    ensures res == Concat(pieces) && Snapshot(Buffers(docs)) == ms[|docs|]
  {
    res := "";
    for n := 0 to |docs|
      invariant res == Concat(pieces[..n]) && Snapshot(Buffers(docs)) == ms[n]
    {
      ConcatNext(pieces, n, pieces[n]);
      res := AddNext(res, docs, n, pieces[n], ms[n + 1]);
    }
    assert pieces[..|docs|] == pieces;
  }

  lemma StagesArePlanned(docs: seq<Slice>, ms: seq<Memory>) returns (pieces: seq<string>)
    requires Stages(Behind, docs, ms)
    ensures Plan(docs, ms, pieces) && Concat(pieces) == Joined(Read(docs, ms))
  {
    pieces := PiecesFrom(Read(docs, ms), true);
    PiecesAreJoined(Read(docs, ms), true);
    forall n | 0 <= n < |docs| ensures Turns(docs[n], n, ms[n], pieces[n], ms[n + 1]) {
      StageAdds(docs, ms, n);
    }
  }

  /** The joined text is that of the documents as they are read one after the other, whatever memory they share; and they are
      read as they were before the call if and only if no document spoils a later one. */
  method JoinYAMLDocuments(docs: seq<Slice>) returns (res: string, ghost ms: seq<Memory>)
    requires AllFit(docs, Snapshot(Buffers(docs)))
    modifies Buffers(docs)
    ensures Stages(Behind, docs, ms) && ms[0] == old(Snapshot(Buffers(docs))) && ms[|docs|] == Snapshot(Buffers(docs))
    ensures res == Joined(Read(docs, ms))
    ensures Read(docs, ms) == Views(docs, ms[0]) <==>
            forall i, j | 0 <= i < j < |docs| :: !Spoils(Behind, docs, ms[0], i, j)
  {
    ms := StagesExist(Behind, docs, Snapshot(Buffers(docs)));
    ReadsTruthIff(Behind, docs, ms);
    ghost var pieces := StagesArePlanned(docs, ms);
    res := Write(docs, ms, pieces);
  }

  /** Two documents side by side in one buffer: the line break behind the first one replaces the second one. */
  lemma NeighbourIsSpoiled(b: Buffer, mem: Memory)
    requires b in mem && mem[b] == "ab"
    ensures var docs := [Slice(b, 0, 1), Slice(b, 1, 1)];
            AllFit(docs, mem) && Spoils(Behind, docs, mem, 0, 1)
  {
    var docs := [Slice(b, 0, 1), Slice(b, 1, 1)];
    assert View(docs[0], mem) == "a";
    TrimIs("a", Range(0, 1), 0, 1);
    assert Behind("a") == Some(1);
  }
}

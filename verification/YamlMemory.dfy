/** Byte slices over shared memory: documents that are read one after the other, each of which gets a line break appended in
    place, into its own slice, behind it, or into a slice that shares its memory. */
module YamlMemory {
  import opened Model

  /** The memory behind slices. */
  class Buffer {
    var bytes: string

    constructor (bytes: string)
      ensures this.bytes == bytes
    {
      this.bytes := bytes;
    }

    method Put(i: nat, c: char)
      requires i < |bytes|
      modifies this
      ensures bytes == old(bytes)[i := c]
    {
      bytes := bytes[i := c];
    }
  }

  /** A slice; appending in place may use the bytes behind it. */
  datatype Slice = Slice(buffer: Buffer, start: nat, len: nat)

  type Memory = map<Buffer, string>

  /** Where in a document the appended line break goes, if it goes anywhere. */
  type Spot = string -> Option<nat>

  ghost predicate Fits(doc: Slice, mem: Memory) {
    doc.buffer in mem && doc.start + doc.len <= |mem[doc.buffer]|
  }

  ghost predicate AllFit(docs: seq<Slice>, mem: Memory) {
    forall i | 0 <= i < |docs| :: Fits(docs[i], mem)
  }

  ghost function View(doc: Slice, mem: Memory): (v: string)
    requires Fits(doc, mem)
    ensures |v| == doc.len
  {
    mem[doc.buffer][doc.start..doc.start + doc.len]
  }

  function Position(spot: Spot, start: nat, view: string): Option<nat> {
    var at := spot(view);
    if at.None? then None else Some(start + at.value)
  }

  function Appended(bytes: string, at: Option<nat>): (b: string)
    ensures |b| == |bytes|
  {
    if at.Some? && at.value < |bytes| then bytes[at.value := '\n'] else bytes
  }

  /** The memory after one document. */
  ghost function Append(spot: Spot, doc: Slice, mem: Memory): Memory
    requires Fits(doc, mem)
  {
    mem[doc.buffer := Appended(mem[doc.buffer], Position(spot, doc.start, View(doc, mem)))]
  }

  /** The memory before each of the documents and after the last one. */
  ghost predicate Stages(spot: Spot, docs: seq<Slice>, ms: seq<Memory>) {
    && |ms| == |docs| + 1
    && (forall n | 0 <= n <= |docs| :: AllFit(docs, ms[n]))
    && (forall n | 0 <= n < |docs| :: Fits(docs[n], ms[n]) && ms[n + 1] == Append(spot, docs[n], ms[n]))
  }

  lemma FitStays(spot: Spot, doc: Slice, docs: seq<Slice>, mem: Memory)
    requires Fits(doc, mem) && AllFit(docs, mem)
    ensures AllFit(docs, Append(spot, doc, mem))
  {
    forall i | 0 <= i < |docs| ensures Fits(docs[i], Append(spot, doc, mem)) {
      assert Fits(docs[i], mem);
    }
  }

  ghost predicate StagesUpTo(spot: Spot, docs: seq<Slice>, ms: seq<Memory>, n: nat)
    requires n <= |docs|
  {
    && |ms| == n + 1
    && (forall i | 0 <= i <= n :: AllFit(docs, ms[i]))
    && (forall i | 0 <= i < n :: Fits(docs[i], ms[i]) && ms[i + 1] == Append(spot, docs[i], ms[i]))
  }

  /** The stages exist: each follows from the one before. */
  lemma StagesExist(spot: Spot, docs: seq<Slice>, mem: Memory) returns (ms: seq<Memory>)
    requires AllFit(docs, mem)
    ensures Stages(spot, docs, ms) && ms[0] == mem
  {
    ms := [mem];
    for n := 0 to |docs|
      invariant StagesUpTo(spot, docs, ms, n) && ms[0] == mem
    {
      assert AllFit(docs, ms[n]) && Fits(docs[n], ms[n]);
      FitStays(spot, docs[n], docs, ms[n]);
      OneMoreStage(spot, docs, ms, n);
      ms := ms + [Append(spot, docs[n], ms[n])];
    }
  }

  lemma OneMoreStage(spot: Spot, docs: seq<Slice>, ms: seq<Memory>, n: nat)
    requires n < |docs| && StagesUpTo(spot, docs, ms, n) && Fits(docs[n], ms[n])
    requires AllFit(docs, Append(spot, docs[n], ms[n]))
    ensures StagesUpTo(spot, docs, ms + [Append(spot, docs[n], ms[n])], n + 1)
  {
    var ms' := ms + [Append(spot, docs[n], ms[n])];
    forall i | 0 <= i < n + 1 ensures Fits(docs[i], ms'[i]) && ms'[i + 1] == Append(spot, docs[i], ms'[i]) {
      if i < n {
        assert ms'[i + 1] == ms[i + 1] && ms'[i] == ms[i];
      }
    }
  }

  ghost function Views(docs: seq<Slice>, mem: Memory): (vs: seq<string>)
    requires AllFit(docs, mem)
    ensures |vs| == |docs|
  {
    seq(|docs|, i requires 0 <= i < |docs| => View(docs[i], mem))
  }

  /** The documents as they are read, each after those before it were appended to. */
  ghost function Read(docs: seq<Slice>, ms: seq<Memory>): (vs: seq<string>)
    requires |ms| == |docs| + 1 && forall n | 0 <= n <= |docs| :: AllFit(docs, ms[n])
    ensures |vs| == |docs|
  {
    seq(|docs|, i requires 0 <= i < |docs| => assert AllFit(docs, ms[i]); View(docs[i], ms[i]))
  }

  /** The line break of one document replaces something else in another one. */
  ghost predicate Spoils(spot: Spot, docs: seq<Slice>, mem: Memory, i: nat, j: nat)
    requires AllFit(docs, mem) && i < |docs| && j < |docs|
  {
    && i != j && docs[i].buffer == docs[j].buffer
    && var at := Position(spot, docs[i].start, View(docs[i], mem));
    && at.Some? && docs[j].start <= at.value < docs[j].start + docs[j].len
    && mem[docs[j].buffer][at.value] != '\n'
  }

  /** Nothing of `other` that is not a line break is where the line break of `doc` goes. */
  ghost predicate Clear(spot: Spot, doc: Slice, other: Slice, mem: Memory)
    requires Fits(doc, mem) && Fits(other, mem)
  {
    doc.buffer == other.buffer ==>
      var at := Position(spot, doc.start, View(doc, mem));
      at.Some? && other.start <= at.value < other.start + other.len ==> mem[other.buffer][at.value] == '\n'
  }

  lemma BreakStays(spot: Spot, doc: Slice, mem: Memory, b: Buffer, p: nat)
    requires Fits(doc, mem) && b in mem && p < |mem[b]| && mem[b][p] == '\n'
    ensures var after := Append(spot, doc, mem); b in after && p < |after[b]| && after[b][p] == '\n'
  {
  }

  /** A line break stays one. */
  lemma {:induction false} BreaksStay(spot: Spot, docs: seq<Slice>, ms: seq<Memory>, m: nat, n: nat, b: Buffer, p: nat)
    requires Stages(spot, docs, ms) && m <= n <= |docs|
    requires b in ms[m] && p < |ms[m][b]| && ms[m][b][p] == '\n'
    ensures b in ms[n] && p < |ms[n][b]| && ms[n][b][p] == '\n'
    decreases n - m
  {
    if m < n {
      BreaksStay(spot, docs, ms, m, n - 1, b, p);
      BreakStays(spot, docs[n - 1], ms[n - 1], b, p);
    }
  }

  lemma {:induction false} SizesStay(spot: Spot, docs: seq<Slice>, ms: seq<Memory>, m: nat, n: nat, b: Buffer)
    requires Stages(spot, docs, ms) && m <= n <= |docs| && b in ms[m]
    ensures b in ms[n] && |ms[n][b]| == |ms[m][b]|
    decreases n - m
  {
    if m < n {
      SizesStay(spot, docs, ms, m, n - 1, b);
    }
  }

  /** At the end there is a line break where each document as it was read gets one. */
  lemma BreakIsThere(spot: Spot, docs: seq<Slice>, ms: seq<Memory>, i: nat)
    requires Stages(spot, docs, ms) && i < |docs| && Fits(docs[i], ms[i]) && Fits(docs[i], ms[|docs|])
    ensures var at, bytes := Position(spot, docs[i].start, View(docs[i], ms[i])), ms[|docs|][docs[i].buffer];
            at.Some? && at.value < |bytes| ==> bytes[at.value] == '\n'
  {
    var at, b := Position(spot, docs[i].start, View(docs[i], ms[i])), docs[i].buffer;
    SizesStay(spot, docs, ms, i, |docs|, b);
    if at.Some? && at.value < |ms[i][b]| {
      BreaksStay(spot, docs, ms, i + 1, |docs|, b, at.value);
    }
  }

  /** A view is itself or has its own line break. */
  ghost predicate Looks(spot: Spot, view: string, v: string) {
    view == v || view == Appended(v, spot(v))
  }

  lemma OtherStays(spot: Spot, doc: Slice, other: Slice, mem: Memory, now: Memory)
    requires Fits(doc, mem) && Fits(other, mem) && Fits(doc, now) && Fits(other, now)
    requires View(doc, now) == View(doc, mem) && Looks(spot, View(other, now), View(other, mem))
    requires Clear(spot, doc, other, mem)
    ensures Fits(other, Append(spot, doc, now)) && View(other, Append(spot, doc, now)) == View(other, now)
  {
    var at := Position(spot, doc.start, View(doc, mem));
    if doc.buffer == other.buffer && at.Some? && other.start <= at.value < other.start + other.len {
      assert View(other, mem)[at.value - other.start] == '\n';
      assert View(other, now)[at.value - other.start] == '\n';
    }
  }

  lemma OwnBreak(spot: Spot, doc: Slice, mem: Memory)
    requires Fits(doc, mem)
    ensures Fits(doc, Append(spot, doc, mem))
    ensures View(doc, Append(spot, doc, mem)) == Appended(View(doc, mem), spot(View(doc, mem)))
  {
  }

  /** As long as nothing is spoiled, the documents to come are as they were. */
  lemma {:induction false} LaterUnspoiled(spot: Spot, docs: seq<Slice>, ms: seq<Memory>, n: nat, k: nat)
    requires Stages(spot, docs, ms) && n <= k < |docs|
    requires forall i, j | 0 <= i < n && i < j < |docs| :: !Spoils(spot, docs, ms[0], i, j)
    ensures View(docs[k], ms[n]) == View(docs[k], ms[0])
    decreases n
  {
    if n > 0 {
      var i := n - 1;
      LaterUnspoiled(spot, docs, ms, i, i);
      LaterUnspoiled(spot, docs, ms, i, k);
      assert !Spoils(spot, docs, ms[0], i, k);
      OtherStays(spot, docs[i], docs[k], ms[0], ms[i]);
    }
  }

  /** The first document that spoils a later one is read as it was, so that the later one is not. */
  lemma {:induction false} SpoiledIsSeen(spot: Spot, docs: seq<Slice>, ms: seq<Memory>, i: nat, j: nat) returns (k: nat)
    requires Stages(spot, docs, ms) && i < j < |docs| && Spoils(spot, docs, ms[0], i, j)
    ensures k < |docs| && View(docs[k], ms[k]) != View(docs[k], ms[0])
    decreases i
  {
    if i', j' :| 0 <= i' < i && i' < j' < |docs| && Spoils(spot, docs, ms[0], i', j') {
      k := SpoiledIsSeen(spot, docs, ms, i', j');
    } else {
      k := j;
      LaterUnspoiled(spot, docs, ms, i, i);
      var b, p := docs[i].buffer, Position(spot, docs[i].start, View(docs[i], ms[0])).value;
      BreakLands(spot, docs, ms, i, j);
      BreaksStay(spot, docs, ms, i + 1, j, b, p);
      assert View(docs[j], ms[j])[p - docs[j].start] == '\n';
      assert View(docs[j], ms[0])[p - docs[j].start] != '\n';
    }
  }

  lemma BreakLands(spot: Spot, docs: seq<Slice>, ms: seq<Memory>, i: nat, j: nat)
    requires Stages(spot, docs, ms) && i < |docs| && j < |docs| && Spoils(spot, docs, ms[0], i, j)
    requires View(docs[i], ms[i]) == View(docs[i], ms[0])
    ensures var b, p := docs[i].buffer, Position(spot, docs[i].start, View(docs[i], ms[0])).value;
            b in ms[i + 1] && p < |ms[i + 1][b]| && ms[i + 1][b][p] == '\n'
  {
    assert Fits(docs[j], ms[i]) && ms[i + 1] == Append(spot, docs[i], ms[i]);
  }

  /** Every document is read as it was before the call if and only if no document spoils a later one. */
  lemma ReadsTruthIff(spot: Spot, docs: seq<Slice>, ms: seq<Memory>)
    requires Stages(spot, docs, ms)
    ensures Read(docs, ms) == Views(docs, ms[0]) <==>
            forall i, j | 0 <= i < j < |docs| :: !Spoils(spot, docs, ms[0], i, j)
  {
    if i, j :| 0 <= i < j < |docs| && Spoils(spot, docs, ms[0], i, j) {
      var k := SpoiledIsSeen(spot, docs, ms, i, j);
      assert Read(docs, ms)[k] != Views(docs, ms[0])[k];
    } else {
      forall k | 0 <= k < |docs| ensures Read(docs, ms)[k] == Views(docs, ms[0])[k] {
        LaterUnspoiled(spot, docs, ms, k, k);
      }
    }
  }

  /** Where no document spoils another one, each ends up with its own line break and nothing else changed. */
  lemma {:induction false} ViewAfter(spot: Spot, docs: seq<Slice>, ms: seq<Memory>, n: nat, k: nat)
    requires Stages(spot, docs, ms) && n <= |docs| && k < |docs|
    requires forall i, j | 0 <= i < |docs| && 0 <= j < |docs| :: !Spoils(spot, docs, ms[0], i, j)
    ensures var v := View(docs[k], ms[0]); View(docs[k], ms[n]) == if k < n then Appended(v, spot(v)) else v
    decreases n
  {
    if n > 0 {
      var i := n - 1;
      ViewAfter(spot, docs, ms, i, k);
      ViewAfter(spot, docs, ms, i, i);
      if k == i {
        OwnBreak(spot, docs[k], ms[i]);
      } else {
        assert !Spoils(spot, docs, ms[0], i, k);
        OtherStays(spot, docs[i], docs[k], ms[0], ms[i]);
      }
    }
  }
}

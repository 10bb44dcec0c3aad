/** The fan-outs as a state machine: N workers that send one reply each into a channel of capacity N, and one receiver. */
module Channels {
  import opened Collectors

  /** A receiver reads as many replies as there are workers; the installation of CRDs waits for all workers before it reads;
      and the readiness check returns at the first reply that says not ready. */
  datatype Receiver = ReadsAll | WaitsForAll | ReturnsEarly

  /** Workers are numbered, and have their replies ready. */
  datatype Fan = Fan(
    replies: seq<Reply>,
    receiver: Receiver,
    waiting: set<nat>,
    buffer: seq<nat>,
    received: seq<nat>,
    left: bool)

  /** The numbers below n. */
  function Numbers(n: nat): (s: set<nat>)
    ensures |s| == n && forall i: nat :: i in s <==> i < n
  {
    if n == 0 then {} else Numbers(n - 1) + {n - 1}
  }

  function Start(replies: seq<Reply>, receiver: Receiver): Fan {
    Fan(replies, receiver, Numbers(|replies|), [], [], false)
  }

  datatype Act = Send(worker: nat) | Receive | Leave

  predicate IsNotReadyReply(r: Reply) {
    r.Some? && r.value.kind == IsNotReady
  }

  /** The reply received last makes the receiver return. */
  predicate MustLeave(f: Fan) {
    && f.receiver == ReturnsEarly && |f.received| > 0
    && f.received[|f.received| - 1] < |f.replies|
    && IsNotReadyReply(f.replies[f.received[|f.received| - 1]])
  }

  /** A send would block on a full buffer. */
  predicate Enabled(f: Fan, a: Act) {
    match a
    case Send(i) => i in f.waiting && |f.buffer| < |f.replies|
    case Receive =>
      && !f.left && f.buffer != [] && |f.received| < |f.replies| && !MustLeave(f)
      && (f.receiver == WaitsForAll ==> f.waiting == {})
    case Leave => !f.left && MustLeave(f)
  }

  function Do(f: Fan, a: Act): Fan
    requires Enabled(f, a)
  {
    match a
    case Send(i) => f.(waiting := f.waiting - {i}, buffer := f.buffer + [i])
    case Receive => f.(buffer := f.buffer[1..], received := f.received + [f.buffer[0]])
    case Leave => f.(left := true)
  }

  ghost predicate Possible(f: Fan, acts: seq<Act>)
    decreases |acts|, 0
  {
    acts == [] || (Possible(f, acts[..|acts| - 1]) && Enabled(After(f, acts[..|acts| - 1]), acts[|acts| - 1]))
  }

  ghost function After(f: Fan, acts: seq<Act>): Fan
    requires Possible(f, acts)
    decreases |acts|, 1
  {
    if acts == [] then f else Do(After(f, acts[..|acts| - 1]), acts[|acts| - 1])
  }

  /** Every worker is waiting, in the buffer or received, and exactly once; and who has left had to. */
  ghost predicate Conserved(f: Fan) {
    && |f.waiting| + |f.buffer| + |f.received| == |f.replies|
    && multiset(f.waiting) + multiset(f.buffer) + multiset(f.received) == multiset(Numbers(|f.replies|))
    && (f.left ==> MustLeave(f))
  }

  lemma StartConserves(replies: seq<Reply>, receiver: Receiver)
    ensures Conserved(Start(replies, receiver))
  {
  }

  lemma DoConserves(f: Fan, a: Act)
    requires Conserved(f) && Enabled(f, a)
    ensures Conserved(Do(f, a))
  {
    match a
    case Send(i) =>
      assert multiset(f.waiting) == multiset(f.waiting - {i}) + multiset{i};
      assert multiset(f.buffer + [i]) == multiset(f.buffer) + multiset{i};
    case Receive =>
      assert f.buffer == [f.buffer[0]] + f.buffer[1..];
      assert multiset(f.buffer) == multiset{f.buffer[0]} + multiset(f.buffer[1..]);
      assert multiset(f.received + [f.buffer[0]]) == multiset(f.received) + multiset{f.buffer[0]};
    case Leave =>
  }

  lemma {:induction false} RunsConserve(replies: seq<Reply>, receiver: Receiver, acts: seq<Act>)
    requires Possible(Start(replies, receiver), acts)
    ensures var f := After(Start(replies, receiver), acts);
            Conserved(f) && f.replies == replies && f.receiver == receiver
  {
    if acts == [] {
      StartConserves(replies, receiver);
    } else {
      var init := acts[..|acts| - 1];
      RunsConserve(replies, receiver, init);
      DoConserves(After(Start(replies, receiver), init), acts[|acts| - 1]);
    }
  }

  /** No sender ever blocks: in every interleaving, even after the receiver has returned early, each worker that has not
      sent yet can send at once. */
  lemma NoSenderBlocks(replies: seq<Reply>, receiver: Receiver, acts: seq<Act>, i: nat)
    requires Possible(Start(replies, receiver), acts)
    requires i in After(Start(replies, receiver), acts).waiting
    ensures Enabled(After(Start(replies, receiver), acts), Send(i))
  {
    RunsConserve(replies, receiver, acts);
    var f := After(Start(replies, receiver), acts);
    assert f.waiting == {i} + (f.waiting - {i});
    assert |f.waiting| >= 1;
  }

  /** The fan-out is over: all workers have sent, and the receiver has all replies or has returned. */
  ghost predicate Over(f: Fan) {
    f.waiting == {} && (f.left || |f.received| == |f.replies|)
  }

  /** No interleaving deadlocks. */
  lemma NeverStuck(replies: seq<Reply>, receiver: Receiver, acts: seq<Act>)
    requires Possible(Start(replies, receiver), acts) && !Over(After(Start(replies, receiver), acts))
    ensures exists a :: Enabled(After(Start(replies, receiver), acts), a)
  {
    RunsConserve(replies, receiver, acts);
    var f := After(Start(replies, receiver), acts);
    if f.waiting != {} {
      var i :| i in f.waiting;
      NoSenderBlocks(replies, receiver, acts, i);
    } else {
      assert |f.waiting| == 0;
      assert Enabled(f, if MustLeave(f) then Leave else Receive);
    }
  }

  /** Every step but an early return brings the end nearer, so that no interleaving goes on for ever. */
  lemma {:induction false} InterleavingsAreFinite(replies: seq<Reply>, receiver: Receiver, acts: seq<Act>)
    requires Possible(Start(replies, receiver), acts)
    ensures var f := After(Start(replies, receiver), acts);
            |acts| + 2 * |f.waiting| + |f.buffer| == 2 * |replies| + (if f.left then 1 else 0)
  {
    if acts != [] {
      RunsConserve(replies, receiver, acts[..|acts| - 1]);
      InterleavingsAreFinite(replies, receiver, acts[..|acts| - 1]);
    }
  }

  /** The replies in the order in which they were received. */
  function Arrivals(received: seq<nat>, replies: seq<Reply>): (rs: seq<Reply>)
    requires forall i | i in received :: i < |replies|
    ensures |rs| == |received|
  {
    seq(|received|, j requires 0 <= j < |received| => assert received[j] in received; replies[received[j]])
  }

  lemma OneMoreNumber(n: nat)
    ensures multiset(Numbers(n + 1)) == multiset(Numbers(n)) + multiset{n}
    ensures multiset(Numbers(n)) == multiset(Numbers(n + 1)) - multiset{n}
  {
  }

  lemma WithoutOne(s: seq<nat>, j: nat)
    requires j < |s|
    ensures multiset(s[..j] + s[j + 1..]) == multiset(s) - multiset{s[j]}
  {
    assert s == s[..j] + [s[j]] + s[j + 1..];
    assert multiset(s) == multiset(s[..j] + s[j + 1..]) + multiset{s[j]};
  }

  /** In a list that holds each number up to `last` exactly once, `last` can be taken out. */
  lemma TakeOut(received: seq<nat>, last: nat) returns (j: nat)
    requires multiset(received) == multiset(Numbers(last + 1))
    ensures j < |received| && received[j] == last
    ensures multiset(received[..j] + received[j + 1..]) == multiset(Numbers(last))
  {
    OneMoreNumber(last);
    assert last in multiset(received) && last in received;
    j :| 0 <= j < |received| && received[j] == last;
    WithoutOne(received, j);
  }

  lemma BelowByMultiset(received: seq<nat>, n: nat)
    requires multiset(received) == multiset(Numbers(n))
    ensures forall i | i in received :: i < n
  {
    forall i | i in received ensures i < n {
      assert i in multiset(received);
      assert i in Numbers(n);
    }
  }

  lemma InsertReorders(some: seq<Reply>, j: nat, x: Reply, all: seq<Reply>)
    requires j <= |some| && Reordered(some, all)
    ensures Reordered(some[..j] + [x] + some[j..], all + [x])
  {
    assert some == some[..j] + some[j..];
    assert multiset(some[..j] + [x] + some[j..]) == multiset(some) + multiset{x};
    assert multiset(all + [x]) == multiset(all) + multiset{x};
  }

  /** Receiving one more reply in the middle puts it in the middle of the arrivals. */
  lemma ArrivalsInsert(received: seq<nat>, j: nat, rest: seq<nat>, replies: seq<Reply>, last: nat)
    requires j < |received| && received[j] == last && |replies| == last + 1
    requires forall i | i in received :: i <= last
    requires rest == received[..j] + received[j + 1..]
    requires forall i | i in rest :: i < last
    ensures var some := Arrivals(rest, replies[..last]);
            Arrivals(received, replies) == some[..j] + [replies[last]] + some[j..]
  {
    var some := Arrivals(rest, replies[..last]);
    var whole := some[..j] + [replies[last]] + some[j..];
    forall i | 0 <= i < |received| ensures Arrivals(received, replies)[i] == whole[i] {
      if i != j {
        var i' := if i < j then i else i - 1;
        assert rest[i'] == received[i] && rest[i'] in rest && whole[i] == some[i'];
      }
    }
  }

  /** A list of numbers that holds each below n exactly once reads off a permutation. */
  lemma {:induction false} PermutationReordersReplies(received: seq<nat>, replies: seq<Reply>)
    requires multiset(received) == multiset(Numbers(|replies|))
    ensures forall i | i in received :: i < |replies|
    ensures Reordered(Arrivals(received, replies), replies)
    decreases |replies|
  {
    BelowByMultiset(received, |replies|);
    if |replies| == 0 {
      assert |multiset(received)| == 0;
    } else {
      var last: nat := |replies| - 1;
      var j := TakeOut(received, last);
      var rest := received[..j] + received[j + 1..];
      PermutationReordersReplies(rest, replies[..last]);
      var some := Arrivals(rest, replies[..last]);
      InsertReorders(some, j, replies[last], replies[..last]);
      ArrivalsInsert(received, j, rest, replies, last);
      assert replies == replies[..last] + [replies[last]];
    }
  }

  lemma ReceivedIsBelow(f: Fan)
    requires Conserved(f)
    ensures forall i | i in f.received :: i < |f.replies|
  {
    forall i | i in f.received ensures i < |f.replies| {
      assert i in multiset(f.received);
      assert i in multiset(Numbers(|f.replies|));
    }
  }

  lemma AllReceived(f: Fan)
    requires Conserved(f) && f.waiting == {} && |f.received| == |f.replies|
    ensures multiset(f.received) == multiset(Numbers(|f.replies|))
  {
    assert f.buffer == [];
    assert multiset(f.waiting) == multiset{} && multiset(f.buffer) == multiset{};
  }

  /** What a readiness check that returned early reports is what it reports of all replies. */
  lemma EarlyReturnReportsTheSame(f: Fan)
    requires Conserved(f) && f.left && forall i | i in f.received :: i < |f.replies|
    ensures ReadyOutcome(f.replies).One?
    ensures SameOutcome(ReadyOutcome(Arrivals(f.received, f.replies)), ReadyOutcome(f.replies))
  {
    var last := |f.received| - 1;
    var arrivals := Arrivals(f.received, f.replies);
    assert arrivals[last] == f.replies[f.received[last]];
    assert arrivals[last] in arrivals && arrivals[last] in f.replies;
    FirstIsThere(arrivals, IsNotReady, false);
    FirstIsThere(f.replies, IsNotReady, false);
  }

  /** However the workers and the receiver interleave, the readiness check reports what it would report of all replies in any
      order, whether or not it returned early; and a receiver that did not return early has received each reply exactly once,
      so that what any of the collectors reports does not depend on the interleaving. */
  lemma EveryInterleavingReportsTheSame(replies: seq<Reply>, receiver: Receiver, acts: seq<Act>)
    requires Possible(Start(replies, receiver), acts) && Over(After(Start(replies, receiver), acts))
    ensures var f := After(Start(replies, receiver), acts);
            && (forall i | i in f.received :: i < |replies|)
            && var arrivals := Arrivals(f.received, replies);
               && SameOutcome(ReadyOutcome(arrivals), ReadyOutcome(replies))
               && (f.left ==> receiver == ReturnsEarly && ReadyOutcome(replies).One?)
               && (!f.left ==>
                     && Reordered(arrivals, replies)
                     && SameOutcome(CleanupOutcome(arrivals), CleanupOutcome(replies))
                     && SameOutcome(ApplyOutcome(arrivals), ApplyOutcome(replies))
                     && SameOutcome(InstallOutcome(arrivals), InstallOutcome(replies)))
  {
    RunsConserve(replies, receiver, acts);
    var f := After(Start(replies, receiver), acts);
    ReceivedIsBelow(f);
    if f.left {
      EarlyReturnReportsTheSame(f);
    } else {
      AllReceived(f);
      PermutationReordersReplies(f.received, replies);
      ArrivalOrderDoesNotMatter(Arrivals(f.received, replies), replies);
    }
  }
}

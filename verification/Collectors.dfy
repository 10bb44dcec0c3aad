/** The receiving ends of the four fan-outs: cleanup, server side apply, readiness check and CRD installation. The replies
    arrive in an order that is not fixed. */
module Collectors {
  import opened Model

  datatype Kind = IsNotFound | IsAlreadyExists | IsNotReady | IsOther

  datatype Err = Err(kind: Kind, text: string)

  /** A nil error is `None`. */
  type Reply = Option<Err>

  datatype Outcome =
    | Fine
    | NotFinished
    | One(err: Err)
    | Multi(errs: seq<Err>)

  /** The errors among the replies, in order, without those of one kind. */
  function Errors(rs: seq<Reply>, except: Option<Kind>): seq<Err> {
    if rs == [] then
      []
    else
      var init, last := Errors(rs[..|rs| - 1], except), rs[|rs| - 1];
      if last.None? || except == Some(last.value.kind) then init else init + [last.value]
  }

  /** Each error is collected as often as it arrived. */
  lemma {:induction false} ErrorsAreKept(rs: seq<Reply>, except: Option<Kind>, x: Err)
    ensures multiset(Errors(rs, except))[x] == if except == Some(x.kind) then 0 else multiset(rs)[Some(x)]
  {
    if rs != [] {
      var init, last := rs[..|rs| - 1], rs[|rs| - 1];
      ErrorsAreKept(init, except, x);
      assert rs == init + [last];
      assert multiset(rs)[Some(x)] == multiset(init)[Some(x)] + if last == Some(x) then 1 else 0;
    }
  }

  lemma NoErrorsIff(rs: seq<Reply>, except: Option<Kind>)
    ensures Errors(rs, except) == [] <==>
            forall r | r in rs :: r == None || except == Some(r.value.kind)
  {
    var errs := Errors(rs, except);
    if errs == [] {
      forall r | r in rs ensures r == None || except == Some(r.value.kind) {
        if r.Some? {
          ErrorsAreKept(rs, except, r.value);
          assert multiset(rs)[r] > 0;
        }
      }
    } else {
      ErrorsAreKept(rs, except, errs[0]);
      assert multiset(errs)[errs[0]] > 0;
      assert Some(errs[0]) in multiset(rs) && Some(errs[0]) in rs;
    }
  }

  /** The first error of one kind, or of any other kind. */
  function First(rs: seq<Reply>, kind: Kind, other: bool): Option<Err> {
    if rs == [] then
      None
    else if rs[0].Some? && (rs[0].value.kind == kind) != other then
      rs[0]
    else
      First(rs[1..], kind, other)
  }

  lemma {:induction false} FirstIsThere(rs: seq<Reply>, kind: Kind, other: bool)
    ensures var f := First(rs, kind, other);
            && (f.Some? <==> exists r :: r in rs && r.Some? && (r.value.kind == kind) != other)
            && (f.Some? ==> f in rs && (f.value.kind == kind) != other)
  {
    if rs != [] {
      FirstIsThere(rs[1..], kind, other);
      assert rs == [rs[0]] + rs[1..];
    }
  }

  lemma {:induction false} FirstAfter(done: seq<Reply>, rest: seq<Reply>, kind: Kind, other: bool)
    requires forall r | r in done && r.Some? :: (r.value.kind == kind) == other
    ensures First(done + rest, kind, other) == First(rest, kind, other)
  {
    if done == [] {
      assert done + rest == rest;
    } else {
      assert done[0] in done && (done + rest)[1..] == done[1..] + rest;
      FirstAfter(done[1..], rest, kind, other);
    }
  }

  // ---------------------------------------------------------------- what the collectors report

  function CleanupOutcome(rs: seq<Reply>): Outcome {
    var errs := Errors(rs, Some(IsNotFound));
    if errs != [] then Multi(errs) else if None in rs then NotFinished else Fine
  }

  function ApplyOutcome(rs: seq<Reply>): Outcome {
    var errs := Errors(rs, None);
    if errs != [] then Multi(errs) else Fine
  }

  function ReadyOutcome(rs: seq<Reply>): Outcome {
    match First(rs, IsNotReady, false)
    case Some(err) => One(err)
    case None => ApplyOutcome(rs)
  }

  function InstallOutcome(rs: seq<Reply>): Outcome {
    match First(rs, IsAlreadyExists, true)
    case Some(err) => One(err)
    case None => Fine
  }

  // ---------------------------------------------------------------- cleanup

  method CollectCleanup(arrivals: seq<Reply>) returns (r: Outcome)
    ensures r == CleanupOutcome(arrivals)
    ensures r == Fine <==> forall a | a in arrivals :: a.Some? && a.value.kind == IsNotFound
    ensures r.Multi? <==> exists a :: a in arrivals && a.Some? && a.value.kind != IsNotFound
  {
    var errs: seq<Err> := [];
    var present := |arrivals|;
    for i := 0 to |arrivals|
      invariant errs == Errors(arrivals[..i], Some(IsNotFound))
      invariant present >= |arrivals| - i
      invariant present == |arrivals| - i <==>
                forall a | a in arrivals[..i] :: a.Some? && a.value.kind == IsNotFound
    {
      var err := arrivals[i];
      assert arrivals[..i + 1] == arrivals[..i] + [err] && arrivals[..i + 1][..i] == arrivals[..i];
      if err.Some? && err.value.kind == IsNotFound {
        present := present - 1;
      } else if err.Some? {
        errs := errs + [err.value];
      }
    }
    assert arrivals[..|arrivals|] == arrivals;
    NoErrorsIff(arrivals, Some(IsNotFound));
    if |errs| > 0 {
      r := Multi(errs);
    } else if present > 0 {
      r := NotFinished;
    } else {
      r := Fine;
    }
  }

  // ---------------------------------------------------------------- readiness check

  /** The receiver leaves at the first reply that says not ready. */
  method CollectReady(arrivals: seq<Reply>) returns (r: Outcome, received: nat)
    ensures r == ReadyOutcome(arrivals)
    ensures r.One? <==> exists a :: a in arrivals && a.Some? && a.value.kind == IsNotReady
    ensures r.One? ==> Some(r.err) in arrivals && r.err.kind == IsNotReady
    ensures r == Fine <==> forall a | a in arrivals :: a == None
    ensures r.Multi? ==> forall x :: multiset(r.errs)[x] == multiset(arrivals)[Some(x)]
    ensures received <= |arrivals| && (!r.One? ==> received == |arrivals|)
  {
    var errs: seq<Err> := [];
    received := 0;
    for i := 0 to |arrivals|
      invariant received == i
      invariant errs == Errors(arrivals[..i], None)
      invariant forall a | a in arrivals[..i] && a.Some? :: a.value.kind != IsNotReady
    {
      var err := arrivals[i];
      assert arrivals[..i + 1] == arrivals[..i] + [err] && arrivals[..i + 1][..i] == arrivals[..i];
      received := received + 1;
      if err.Some? && err.value.kind == IsNotReady {
        FirstAfter(arrivals[..i], arrivals[i..], IsNotReady, false);
        assert arrivals[..i] + arrivals[i..] == arrivals;
        assert err in arrivals;
        return One(err.value), received;
      }
      if err.Some? {
        errs := errs + [err.value];
      }
    }
    assert arrivals[..|arrivals|] == arrivals;
    FirstIsThere(arrivals, IsNotReady, false);
    NoErrorsIff(arrivals, None);
    forall x {
      ErrorsAreKept(arrivals, None, x);
    }
    r := if |errs| > 0 then Multi(errs) else Fine;
  }

  // ---------------------------------------------------------------- server side apply

  method CollectApplies(arrivals: seq<Reply>) returns (r: Outcome)
    ensures r == ApplyOutcome(arrivals)
    ensures r == Fine <==> forall a | a in arrivals :: a == None
    ensures r != Fine ==> r.Multi? && forall x :: multiset(r.errs)[x] == multiset(arrivals)[Some(x)]
  {
    var errs: seq<Err> := [];
    for i := 0 to |arrivals|
      invariant errs == Errors(arrivals[..i], None)
    {
      assert arrivals[..i + 1][..i] == arrivals[..i];
      if arrivals[i].Some? {
        errs := errs + [arrivals[i].value];
      }
    }
    assert arrivals[..|arrivals|] == arrivals;
    NoErrorsIff(arrivals, None);
    forall x {
      ErrorsAreKept(arrivals, None, x);
    }
    r := if errs != [] then Multi(errs) else Fine;
  }

  // ---------------------------------------------------------------- CRD installation

  /** The first reply that is an error and does not say that the definition exists already. */
  ghost predicate FirstFailure(arrivals: seq<Reply>, i: nat, err: Err)
    requires i < |arrivals|
  {
    && arrivals[i] == Some(err) && err.kind != IsAlreadyExists
    && forall j | 0 <= j < i :: arrivals[j] == None || arrivals[j].value.kind == IsAlreadyExists
  }

  method CollectInstalls(arrivals: seq<Reply>) returns (r: Outcome)
    ensures r == InstallOutcome(arrivals)
    ensures r == Fine <==> forall a | a in arrivals :: a == None || a.value.kind == IsAlreadyExists
    ensures r != Fine ==> r.One? && exists i | 0 <= i < |arrivals| :: FirstFailure(arrivals, i, r.err)
  {
    for i := 0 to |arrivals|
      invariant forall a | a in arrivals[..i] :: a == None || a.value.kind == IsAlreadyExists
    {
      var err := arrivals[i];
      assert arrivals[..i + 1] == arrivals[..i] + [err];
      if err.Some? && err.value.kind != IsAlreadyExists {
        FirstAfter(arrivals[..i], arrivals[i..], IsAlreadyExists, true);
        assert arrivals[..i] + arrivals[i..] == arrivals && err in arrivals;
        assert forall j | 0 <= j < i :: arrivals[j] in arrivals[..i];
        assert FirstFailure(arrivals, i, err.value);
        return One(err.value);
      }
    }
    assert arrivals[..|arrivals|] == arrivals;
    FirstIsThere(arrivals, IsAlreadyExists, true);
    r := Fine;
  }

  // ---------------------------------------------------------------- order does not matter

  /** Two arrival orders of the same replies. */
  ghost predicate Reordered(a: seq<Reply>, b: seq<Reply>) {
    multiset(a) == multiset(b)
  }

  lemma ReorderedMembers(a: seq<Reply>, b: seq<Reply>, r: Reply)
    requires Reordered(a, b)
    ensures r in a <==> r in b
  {
    assert r in multiset(a) <==> r in multiset(b);
  }

  /** The collected errors are the same ones, each as often, for every arrival order. */
  lemma ErrorsIgnoreOrder(a: seq<Reply>, b: seq<Reply>, except: Option<Kind>)
    requires Reordered(a, b)
    ensures multiset(Errors(a, except)) == multiset(Errors(b, except))
  {
    forall x: Err ensures multiset(Errors(a, except))[x] == multiset(Errors(b, except))[x] {
      ErrorsAreKept(a, except, x);
      ErrorsAreKept(b, except, x);
    }
  }

  /** Outcomes that tell a caller the same: equal but for the order of collected errors and for which of several
      single errors is reported. */
  ghost predicate SameOutcome(a: Outcome, b: Outcome) {
    match (a, b)
    case (Multi(x), Multi(y)) => multiset(x) == multiset(y)
    case (One(x), One(y)) => true
    case _ => a == b
  }

  /** Every arrival order of the same replies gives the same outcome, for all four collectors. */
  lemma ArrivalOrderDoesNotMatter(a: seq<Reply>, b: seq<Reply>)
    requires Reordered(a, b)
    ensures SameOutcome(CleanupOutcome(a), CleanupOutcome(b))
    ensures SameOutcome(ApplyOutcome(a), ApplyOutcome(b))
    ensures SameOutcome(ReadyOutcome(a), ReadyOutcome(b))
    ensures SameOutcome(InstallOutcome(a), InstallOutcome(b))
  {
    ErrorsIgnoreOrder(a, b, None);
    ErrorsIgnoreOrder(a, b, Some(IsNotFound));
    forall r {
      ReorderedMembers(a, b, r);
    }
    forall except {
      EmptyByMultiset(Errors(a, except), Errors(b, except));
    }
    FirstIsThere(a, IsNotReady, false);
    FirstIsThere(b, IsNotReady, false);
    FirstIsThere(a, IsAlreadyExists, true);
    FirstIsThere(b, IsAlreadyExists, true);
  }

  lemma EmptyByMultiset(x: seq<Err>, y: seq<Err>)
    ensures multiset(x) == multiset(y) ==> |x| == |y|
  {
    assert multiset(x) == multiset(y) ==> |multiset(x)| == |multiset(y)|;
  }

  /** What an outcome of the cleanup means: nothing went wrong and all was gone, something was still there, or exactly the
      errors that are not of the kind NotFound. */
  lemma CleanupMeaning(rs: seq<Reply>)
    ensures CleanupOutcome(rs) == Fine <==> forall r | r in rs :: r.Some? && r.value.kind == IsNotFound
    ensures CleanupOutcome(rs).Multi? <==> exists r :: r in rs && r.Some? && r.value.kind != IsNotFound
    ensures CleanupOutcome(rs).Multi? ==>
              forall x :: multiset(CleanupOutcome(rs).errs)[x] ==
                          if x.kind == IsNotFound then 0 else multiset(rs)[Some(x)]
  {
    NoErrorsIff(rs, Some(IsNotFound));
    forall x {
      ErrorsAreKept(rs, Some(IsNotFound), x);
    }
  }
}

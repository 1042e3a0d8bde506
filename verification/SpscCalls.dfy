/**
 * The ring buffer seen from its callers alone: the values passed to emplace, what each
 * call returned, and what size() answered.
 */
module SpscCalls {
  import opened Options
  import opened Words
  import opened SpscMachine
  import opened SpscProofs
  import opened SpscTheorems
  import opened SpscSafety

  /** The values passed to emplace, in call order. */
  function Calls<T>(acts: seq<Action<T>>): seq<T> {
    if acts == [] then [] else Called(acts[0]) + Calls(acts[1..])
  }

  function Called<T>(a: Action<T>): seq<T> {
    if a.PCall? then [a.x] else []
  }

  /** The values whose call returned true. */
  function Accepted<T>(calls: seq<T>, answers: seq<bool>): seq<T>
    requires |answers| <= |calls|
    decreases |answers|
  {
    if answers == [] then []
    else
      var n := |answers| - 1;
      Accepted(calls, answers[..n]) + if answers[n] then [calls[n]] else []
  }

  /** The values that calls of pop returned. */
  function Somes<T>(answers: seq<Option<T>>): seq<T> {
    if answers == [] then []
    else
      var n := |answers| - 1;
      Somes(answers[..n]) + if answers[n].Some? then [answers[n].value] else []
  }

  /** One call at a time: each has returned, except the one the producer is in. */
  ghost predicate PushesOk<T>(s: State<T>, calls: seq<T>) {
    && |calls| == |s.pushReturns| + (if s.prod.PIdle? then 0 else 1)
    && (!s.prod.PIdle? ==> s.prod.x == calls[|calls| - 1])
    && s.pushed == Accepted(calls, s.pushReturns)
  }

  ghost predicate PopsOk<T>(s: State<T>) {
    s.popped == Somes(s.popReturns)
  }

  lemma {:induction false} AcceptedPrefix<T>(calls: seq<T>, more: seq<T>, answers: seq<bool>)
    requires |answers| <= |calls|
    ensures Accepted(calls + more, answers) == Accepted(calls, answers)
    decreases |answers|
  {
    if answers != [] {
      AcceptedPrefix(calls, more, answers[..|answers| - 1]);
    }
  }

  lemma AcceptedSnoc<T>(calls: seq<T>, answers: seq<bool>, b: bool)
    requires |answers| < |calls|
    ensures Accepted(calls, answers + [b]) == Accepted(calls, answers) + if b then [calls[|answers|]] else []
  {
    assert (answers + [b])[..|answers|] == answers;
  }

  lemma SomesSnoc<T>(answers: seq<Option<T>>, r: Option<T>)
    ensures Somes(answers + [r]) == Somes(answers) + if r.Some? then [r.value] else []
  {
    assert (answers + [r])[..|answers|] == answers;
  }

  lemma ConsumerLeavesPushes<T>(s: State<T>, a: Action<T>)
    requires s.Shaped() && Enabled(s, a) && ByConsumer(a)
    ensures var s' := Apply(s, a);
            s'.prod == s.prod && s'.pushed == s.pushed && s'.pushReturns == s.pushReturns && Called(a) == []
  {
    hide BitAnd, Pow2, Wrap;
  }

  lemma ProducerLeavesPops<T>(s: State<T>, a: Action<T>)
    requires s.Shaped() && Enabled(s, a) && !ByConsumer(a)
    ensures Apply(s, a).popped == s.popped && Apply(s, a).popReturns == s.popReturns
  {
    hide BitAnd, Pow2, Wrap;
  }

  lemma ProducerKeepsPushes<T>(s: State<T>, a: Action<T>, calls: seq<T>)
    requires s.Shaped() && Enabled(s, a) && PushesOk(s, calls) && !ByConsumer(a)
    ensures PushesOk(Apply(s, a), calls + Called(a))
  {
    hide BitAnd, Pow2, Wrap, LooksFull, Accepted;
    AcceptedPrefix(calls, Called(a), s.pushReturns);
    assert !a.PCall? ==> calls + Called(a) == calls;
    if a.PTest? {
      AcceptedSnoc(calls, s.pushReturns, false);
    } else if a.PPublish? {
      AcceptedSnoc(calls, s.pushReturns, true);
    }
  }

  lemma ConsumerKeepsPops<T>(s: State<T>, a: Action<T>)
    requires s.Shaped() && Enabled(s, a) && PopsOk(s) && ByConsumer(a)
    ensures PopsOk(Apply(s, a))
  {
    hide BitAnd, Pow2, Wrap, Somes;
    if a.CTest? {
      SomesSnoc(s.popReturns, None);
    } else if a.CPublish? {
      SomesSnoc(s.popReturns, Some(s.cons.out));
    }
  }

  lemma StepKeepsCalls<T>(s: State<T>, a: Action<T>, calls: seq<T>)
    requires s.Shaped() && Enabled(s, a) && PushesOk(s, calls) && PopsOk(s)
    ensures PushesOk(Apply(s, a), calls + Called(a)) && PopsOk(Apply(s, a))
  {
    hide Apply, Enabled, ByConsumer, Called;
    if ByConsumer(a) {
      ConsumerLeavesPushes(s, a);
      ConsumerKeepsPops(s, a);
      assert calls + [] == calls;
    } else {
      ProducerKeepsPushes(s, a, calls);
      ProducerLeavesPops(s, a);
    }
  }

  lemma {:induction false} RunKeepsCalls<T>(s: State<T>, acts: seq<Action<T>>, calls: seq<T>)
    requires s.Shaped() && Legal(s, acts) && PushesOk(s, calls) && PopsOk(s)
    ensures PushesOk(Exec(s, acts), calls + Calls(acts)) && PopsOk(Exec(s, acts))
    decreases acts
  {
    hide Apply, Enabled, PushesOk, PopsOk, Called;
    if acts == [] {
      assert calls + [] == calls;
    } else {
      var a := acts[0];
      StepKeepsCalls(s, a, calls);
      RunKeepsCalls(Apply(s, a), acts[1..], calls + Called(a));
      assert calls + Called(a) + Calls(acts[1..]) == calls + Calls(acts);
    }
  }

  /**
   * Under every interleaving and any stale loads: the values that pops returned, then the
   * values still in the ring, are the values whose emplace returned true, in call order.
   */
  lemma {:induction false} FifoOfCalls<T>(logCap: nat, acts: seq<Action<T>>)
    requires logCap <= 63 && Legal(Init<T>(logCap), acts)
    ensures Inv(Exec(Init<T>(logCap), acts))
    ensures var s := Exec(Init<T>(logCap), acts);
            && |s.pushReturns| <= |Calls(acts)| <= |s.pushReturns| + 1
            && Somes(s.popReturns) + Contents(s) == Accepted(Calls(acts), s.pushReturns)
  {
    FifoUnderStaleLoads(logCap, acts);
    RunKeepsCalls(Init<T>(logCap), acts, []);
    assert [] + Calls(acts) == Calls(acts);
  }

  // ------------------------------------------------------------------------- size()

  /** What size() answers: the true distance to the value its load returned. */
  lemma SizeAnswers<T>(s: State<T>, a: Action<T>)
    requires Inv(s) && Enabled(s, a)
    ensures a.PSize? ==> a.counter <= s.h && Apply(s, a).sizes == s.sizes + [s.h - a.counter]
    ensures a.CSize? ==> s.t <= a.counter && Apply(s, a).sizes == s.sizes + [a.counter - s.t]
    ensures !a.PSize? && !a.CSize? ==> Apply(s, a).sizes == s.sizes
  {
    hide BitAnd, Pow2, ThreadsOk, LogsOk, SlotsOk;
    WrapKeepsResidue(0, s.logCap);
    match a {
      case PSize(c) => WrappedDistance(s.h, c);
      case CSize(c) => WrappedDistance(c, s.t);
      case _ =>
    }
  }

  /**
   * In any run, size() answers how many elements the ring holds exactly when its load of
   * the other index is fresh; a stale load makes the producer see more and the consumer fewer.
   */
  lemma {:induction false} SizeIsExactIff<T>(logCap: nat, before: seq<Action<T>>, a: Action<T>)
    requires logCap <= 63 && Legal(Init<T>(logCap), before)
    requires Enabled(Exec(Init<T>(logCap), before), a) && (a.PSize? || a.CSize?)
    ensures Inv(Exec(Init<T>(logCap), before))
    ensures var s := Exec(Init<T>(logCap), before);
            var sizes, held := Apply(s, a).sizes, |Contents(s)|;
            && |sizes| == |s.sizes| + 1
            && var answer := sizes[|s.sizes|];
            && (answer == held <==> a.counter == if a.PSize? then s.t else s.h)
            && (if a.PSize? then answer >= held else answer <= held)
            && answer <= Pow2(logCap)
  {
    FifoUnderStaleLoads(logCap, before);
    SameCap(Init<T>(logCap), before);
    hide Legal, Exec, BitAnd, Pow2, ThreadsOk, LogsOk, SlotsOk;
    SizeAnswers(Exec(Init<T>(logCap), before), a);
  }
}

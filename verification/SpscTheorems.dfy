/** The promises of the ring buffer, over every run of its two threads. */
module SpscTheorems {
  import opened Options
  import opened Words
  import opened SpscMachine
  import opened SpscProofs

  // ---------------------------------------------------------------- bounded FIFO

  /** The abstract queue after one response, or None when a bounded FIFO would not give it. */
  function Accept<T(==)>(cap: nat, q: seq<T>, e: Event<T>): Option<seq<T>> {
    match e
    case PushOk(x) => if |q| < cap then Some(q + [x]) else None
    case PushFull => if |q| == cap then Some(q) else None
    case PopOk(x) => if q != [] && q[0] == x then Some(q[1..]) else None
    case PopEmpty => if q == [] then Some(q) else None
  }

  /** The abstract queue after a list of responses, starting empty. */
  function Replay<T(==)>(cap: nat, es: seq<Event<T>>): Option<seq<T>> {
    if es == [] then Some([])
    else match Replay(cap, es[..|es| - 1])
      case None => None
      case Some(q) => Accept(cap, q, es[|es| - 1])
  }

  function Successes<T>(es: seq<Event<T>>): seq<Event<T>> {
    if es == [] then []
    else
      var e := es[|es| - 1];
      Successes(es[..|es| - 1]) + if e.PushOk? || e.PopOk? then [e] else []
  }

  /** What the calls of one thread return, read off the log of effects. */
  function PushOutcomes<T>(es: seq<Event<T>>): seq<bool> {
    if es == [] then []
    else
      var e := es[|es| - 1];
      PushOutcomes(es[..|es| - 1]) + if e.PushOk? || e.PushFull? then [e.PushOk?] else []
  }

  function PopOutcomes<T>(es: seq<Event<T>>): seq<Option<T>> {
    if es == [] then []
    else
      var e := es[|es| - 1];
      PopOutcomes(es[..|es| - 1])
      + match e
        case PopOk(x) => [Some(x)]
        case PopEmpty => [None]
        case _ => []
  }

  lemma {:induction false} ReplaySnoc<T>(cap: nat, es: seq<Event<T>>, e: Event<T>)
    ensures Replay(cap, es + [e]) ==
            match Replay(cap, es) case None => None case Some(q) => Accept(cap, q, e)
    ensures Successes(es + [e]) == Successes(es) + if e.PushOk? || e.PopOk? then [e] else []
    ensures PushOutcomes(es + [e]) == PushOutcomes(es) + if e.PushOk? || e.PushFull? then [e.PushOk?] else []
    ensures PopOutcomes(es + [e]) == PopOutcomes(es)
            + match e case PopOk(x) => [Some(x)] case PopEmpty => [None] case _ => []
  {
  }

  // ------------------------------------------------------- what is in the ring now

  /** The element with counter i, wherever it physically is: its slot, or the register of a pop in flight. */
  ghost function ElementAt<T>(s: State<T>, i: nat): T
    requires Inv(s) && s.t <= i < s.h
  {
    if i == s.t && (s.cons.CMoved? || s.cons.CDestroyed?) then s.cons.out
    else
      SlotOfCounter(i, s.logCap);
      assert s.slots[i % s.Cap()] == Expected(s, i);
      s.slots[s.SlotIndex(Wrap(i))].value
  }

  ghost function Contents<T>(s: State<T>): (q: seq<T>)
    requires Inv(s)
  {
    seq(s.h - s.t, i requires 0 <= i < s.h - s.t => ElementAt(s, s.t + i))
  }

  lemma ElementIsBorn<T>(s: State<T>, i: nat)
    requires Inv(s) && s.t <= i < s.h
    ensures ElementAt(s, i) == s.born[i]
  {
    hide BitAnd, Pow2;
    SlotOfCounter(i, s.logCap);
    if i >= Low(s) && !(i == s.t && s.cons.CMoved?) {
      assert s.slots[i % s.Cap()] == Expected(s, i);
    }
  }

  lemma ContentsAreBorn<T>(s: State<T>)
    requires Inv(s)
    ensures Contents(s) == s.born[s.t..s.h]
  {
    hide BitAnd, Pow2;
    forall i: nat | i < s.h - s.t ensures Contents(s)[i] == s.born[s.t + i] {
      ElementIsBorn(s, s.t + i);
    }
  }

  /**
   * Under every interleaving, with stale loads allowed: the values popped followed
   * by the values still in the ring are the values successfully pushed, in order.
   */
  lemma {:induction false} FifoUnderStaleLoads<T>(logCap: nat, acts: seq<Action<T>>)
    requires logCap <= 63 && Legal(Init<T>(logCap), acts)
    ensures Inv(Exec(Init<T>(logCap), acts))
    ensures var s := Exec(Init<T>(logCap), acts);
            s.popped + Contents(s) == s.pushed && |Contents(s)| <= s.Cap()
  {
    InitInv<T>(logCap);
    RunKeepsInv(Init<T>(logCap), acts);
    var s := Exec(Init<T>(logCap), acts);
    ContentsAreBorn(s);
  }

  // ----------------------------------------------------------------- linearization

  /** A load that returns the newest value of the other thread's index. */
  predicate Fresh<T>(s: State<T>, a: Action<T>) {
    match a
    case PLoadTail(c) => c == s.t
    case CLoadHead(c) => c == s.h
    case _ => true
  }

  /** A failing call has taken effect once its locals decide the test that follows. */
  ghost predicate PushFailing<T>(s: State<T>) {
    s.prod.PHaveBoth? && LooksFull(s, s.prod.head, s.prod.tail)
  }

  ghost predicate PopFailing<T>(s: State<T>) {
    s.cons.CHaveBoth? && s.cons.head == s.cons.tail
  }

  /** Every call takes effect exactly once, after it is called and no later than it returns. */
  ghost predicate EffectsMatchReturns<T>(s: State<T>) {
    && PushOutcomes(s.effects) == s.pushReturns + (if PushFailing(s) then [false] else [])
    && PopOutcomes(s.effects) == s.popReturns + (if PopFailing(s) then [None] else [])
  }

  /** The responses one step adds to the log. */
  function Emitted<T>(s: State<T>, a: Action<T>): seq<Event<T>>
    requires Enabled(s, a)
  {
    match a
    case PLoadTail(c) => if LooksFull(s, s.prod.head, Wrap(c)) then [PushFull] else []
    case PPublish => [PushOk(s.prod.x)]
    case CLoadHead(c) => if Wrap(c) == s.cons.tail then [PopEmpty] else []
    case CPublish => [PopOk(s.cons.out)]
    case _ => []
  }

  lemma EmittedIsLogged<T>(s: State<T>, a: Action<T>)
    requires s.Shaped() && Enabled(s, a)
    ensures Apply(s, a).effects == s.effects + Emitted(s, a)
    ensures var e := Emitted(s, a);
            PushOutcomes(Apply(s, a).effects) ==
              PushOutcomes(s.effects) + if e != [] && (e[0].PushOk? || e[0].PushFull?) then [e[0].PushOk?] else []
    ensures var e := Emitted(s, a);
            PopOutcomes(Apply(s, a).effects) ==
              PopOutcomes(s.effects) + if e != [] && e[0].PopOk? then [Some(e[0].x)]
                                       else if e != [] && e[0].PopEmpty? then [None] else []
  {
    assert s.effects + [] == s.effects;
    if Emitted(s, a) != [] {
      ReplaySnoc(s.Cap(), s.effects, Emitted(s, a)[0]);
      assert Emitted(s, a) == [Emitted(s, a)[0]];
    }
  }

  lemma StepMatchesPushReturns<T>(s: State<T>, a: Action<T>)
    requires s.Shaped() && Enabled(s, a) && EffectsMatchReturns(s) && !a.CMove? && !a.CDestroy?
    ensures var s' := Apply(s, a);
            PushOutcomes(s'.effects) == s'.pushReturns + (if PushFailing(s') then [false] else [])
  {
    hide BitAnd, Pow2, PushOutcomes, PopOutcomes, Wrap;
    EmittedIsLogged(s, a);
  }

  lemma StepMatchesPopReturns<T>(s: State<T>, a: Action<T>)
    requires s.Shaped() && Enabled(s, a) && EffectsMatchReturns(s) && !a.CMove? && !a.CDestroy?
    ensures var s' := Apply(s, a);
            PopOutcomes(s'.effects) == s'.popReturns + (if PopFailing(s') then [None] else [])
  {
    hide BitAnd, Pow2, PushOutcomes, PopOutcomes, Wrap;
    EmittedIsLogged(s, a);
  }

  lemma StepMatchesReturns<T>(s: State<T>, a: Action<T>)
    requires s.Shaped() && Enabled(s, a) && EffectsMatchReturns(s)
    ensures EffectsMatchReturns(Apply(s, a))
  {
    hide BitAnd, Pow2, PushOutcomes, PopOutcomes, Wrap;
    if !a.CMove? && !a.CDestroy? {
      StepMatchesPushReturns(s, a);
      StepMatchesPopReturns(s, a);
    }
  }

  /** The elements published and not yet reclaimed, read off the construction log. */
  ghost function Queued<T>(s: State<T>): seq<T>
    requires s.t <= s.h <= |s.born|
  {
    s.born[s.t..s.h]
  }

  /** A bounded FIFO gives the response logged by a step exactly when the step's load, if it has one, is fresh. */
  lemma StepAccepted<T>(s: State<T>, a: Action<T>, e: Event<T>)
    requires Inv(s) && Enabled(s, a) && Emitted(s, a) == [e]
    ensures e.PushOk? || e.PopOk? ==> Fresh(s, a)
    ensures Inv(Apply(s, a))
    ensures Accept(s.Cap(), Queued(s), e) == if Fresh(s, a) then Some(Queued(Apply(s, a))) else None
  {
    hide BitAnd, Pow2;
    StepKeepsInv(s, a);
    WrapKeepsResidue(0, s.logCap);
    var s' := Apply(s, a);
    assert [e][0] == e;
    match a {
      case PLoadTail(c) => WrappedDistance(s.h, c);
      case PPublish => assert Queued(s') == Queued(s) + [s.prod.x];
      case CLoadHead(c) => WrappedDistance(c, s.t);
      case CPublish => assert Queued(s') == Queued(s)[1..];
      case _ =>
    }
  }

  lemma StepReplaysSuccesses<T>(s: State<T>, a: Action<T>)
    requires Inv(s) && Enabled(s, a)
    requires Replay(s.Cap(), Successes(s.effects)) == Some(Queued(s))
    ensures Inv(Apply(s, a))
    ensures Replay(s.Cap(), Successes(Apply(s, a).effects)) == Some(Queued(Apply(s, a)))
  {
    var s' := Apply(s, a);
    StepKeepsInv(s, a);
    if a.PPublish? || a.CPublish? {
      var e := if a.PPublish? then PushOk(s.prod.x) else PopOk(s.cons.out);
      ReplaySnoc(s.Cap(), s.effects, e);
      ReplaySnoc(s.Cap(), Successes(s.effects), e);
      StepAccepted(s, a, e);
    } else {
      QueuedUnchanged(s, a);
      SuccessesUnchanged(s, a);
    }
  }

  lemma QueuedUnchanged<T>(s: State<T>, a: Action<T>)
    requires Inv(s) && Enabled(s, a) && !a.PPublish? && !a.CPublish?
    ensures Inv(Apply(s, a)) && Queued(Apply(s, a)) == Queued(s)
  {
    StepKeepsInv(s, a);
  }

  lemma SuccessesUnchanged<T>(s: State<T>, a: Action<T>)
    requires s.Shaped() && Enabled(s, a) && !a.PPublish? && !a.CPublish?
    ensures Successes(Apply(s, a).effects) == Successes(s.effects)
  {
    assert s.effects + [] == s.effects;
    ReplaySnoc(s.Cap(), s.effects, PushFull);
    ReplaySnoc(s.Cap(), s.effects, PopEmpty);
  }

  /** The step decides no call's failure, or decides it on a fresh load. */
  predicate Justified<T>(s: State<T>, a: Action<T>)
    requires Enabled(s, a)
  {
    Emitted(s, a) == [] || Fresh(s, a)
  }

  predicate FailuresFresh<T>(s: State<T>, acts: seq<Action<T>>)
    requires s.Shaped() && Legal(s, acts)
    decreases acts
  {
    acts == [] || (Justified(s, acts[0]) && FailuresFresh(Apply(s, acts[0]), acts[1..]))
  }

  /** An unjustified failure is where a replay breaks, and it stays broken. */
  lemma StepReplays<T>(s: State<T>, a: Action<T>)
    requires Inv(s) && Enabled(s, a)
    ensures Inv(Apply(s, a))
    ensures Replay(s.Cap(), s.effects) == Some(Queued(s)) ==>
              Replay(s.Cap(), Apply(s, a).effects) == if Justified(s, a) then Some(Queued(Apply(s, a))) else None
    ensures Replay(s.Cap(), s.effects) == None ==> Replay(s.Cap(), Apply(s, a).effects) == None
  {
    hide BitAnd, Pow2, Accept, Fresh;
    StepKeepsInv(s, a);
    EmittedIsLogged(s, a);
    if Emitted(s, a) == [] {
      assert s.effects + [] == s.effects;
      QueuedUnchanged(s, a);
    } else {
      var e := Emitted(s, a)[0];
      assert Emitted(s, a) == [e];
      ReplaySnoc(s.Cap(), s.effects, e);
      StepAccepted(s, a, e);
    }
  }

  lemma {:induction false} RunReplaysIff<T>(s: State<T>, acts: seq<Action<T>>)
    requires Inv(s) && Legal(s, acts)
    ensures Inv(Exec(s, acts)) && Exec(s, acts).Cap() == s.Cap()
    ensures Replay(s.Cap(), s.effects) == Some(Queued(s)) ==>
              Replay(s.Cap(), Exec(s, acts).effects) ==
              if FailuresFresh(s, acts) then Some(Queued(Exec(s, acts))) else None
    ensures Replay(s.Cap(), s.effects) == None ==> Replay(s.Cap(), Exec(s, acts).effects) == None
    decreases acts
  {
    if acts != [] {
      hide Inv, Apply, Enabled, Replay, Queued, Justified;
      StepReplays(s, acts[0]);
      RunReplaysIff(Apply(s, acts[0]), acts[1..]);
    }
  }

  lemma {:induction false} RunReplays<T>(s: State<T>, acts: seq<Action<T>>)
    requires Inv(s) && Legal(s, acts) && EffectsMatchReturns(s)
    requires Replay(s.Cap(), Successes(s.effects)) == Some(Queued(s))
    ensures var s' := Exec(s, acts);
            && s'.t <= s'.h <= |s'.born| && s'.Cap() == s.Cap()
            && EffectsMatchReturns(s')
            && Replay(s.Cap(), Successes(s'.effects)) == Some(Queued(s'))
    decreases acts
  {
    if acts != [] {
      StepKeepsInv(s, acts[0]);
      StepMatchesReturns(s, acts[0]);
      StepReplaysSuccesses(s, acts[0]);
      RunReplays(Apply(s, acts[0]), acts[1..]);
    }
  }

  /**
   * Every interleaving is linearizable to a bounded FIFO of kCapacity elements: the
   * successful calls always; all the calls, failing ones included, if and only if every
   * load that decides a failure is fresh. Each call's effect lies between its call and
   * its return, and agrees with what it returns.
   */
  lemma {:induction false} Linearizable<T>(logCap: nat, acts: seq<Action<T>>)
    requires logCap <= 63 && Legal(Init<T>(logCap), acts)
    ensures var s := Exec(Init<T>(logCap), acts);
            && Inv(s)
            && EffectsMatchReturns(s)
            && Replay(Pow2(logCap), Successes(s.effects)) == Some(Contents(s))
            && (Replay(Pow2(logCap), s.effects) == Some(Contents(s)) <==> FailuresFresh(Init<T>(logCap), acts))
  {
    var i := Init<T>(logCap);
    InitInv<T>(logCap);
    RunKeepsInv(i, acts);
    RunReplays(i, acts);
    RunReplaysIff(i, acts);
    ContentsAreBorn(Exec(i, acts));
  }
}

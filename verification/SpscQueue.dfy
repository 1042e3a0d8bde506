/**
 * The ring buffer itself: its fields, updated in place by `emplace`, `pop` and the
 * destructor. Each call is proved to be a run of step-machine actions, so everything
 * proved of all runs holds of the object.
 */
module SpscQueue {
  import opened Options
  import opened Words
  import opened SpscMachine
  import opened SpscProofs
  import opened SpscTheorems
  import opened SpscSafety

  lemma {:induction false} ExecCons<T>(s: State<T>, a: Action<T>, acts: seq<Action<T>>)
    requires s.Shaped() && Enabled(s, a) && Legal(Apply(s, a), acts)
    ensures Legal(s, [a] + acts) && Exec(s, [a] + acts) == Exec(Apply(s, a), acts)
  {
  }

  lemma {:induction false} ExecAppend<T>(s: State<T>, xs: seq<Action<T>>, ys: seq<Action<T>>)
    requires s.Shaped() && Legal(s, xs) && Legal(Exec(s, xs), ys)
    ensures Legal(s, xs + ys) && Exec(s, xs + ys) == Exec(Exec(s, xs), ys)
    decreases xs
  {
    hide Apply, Enabled;
    if xs == [] {
      assert xs + ys == ys;
    } else {
      var s1, zs := Apply(s, xs[0]), xs[1..] + ys;
      ExecAppend(s1, xs[1..], ys);
      ExecCons(s, xs[0], zs);
      assert xs + ys == [xs[0]] + zs;
    }
  }

  /** Two, three and four consecutive steps as a run. */
  lemma Exec2<T>(s: State<T>, a: Action<T>, b: Action<T>)
    requires s.Shaped() && Enabled(s, a) && Enabled(Apply(s, a), b)
    ensures Legal(s, [a, b]) && Exec(s, [a, b]) == Apply(Apply(s, a), b)
  {
    var s1 := Apply(s, a);
    assert Legal(Apply(s1, b), []);
    ExecCons(s1, b, []);
    ExecCons(s, a, [b]);
    assert [b] + [] == [b] && [a] + [b] == [a, b];
  }

  lemma Exec3<T>(s: State<T>, a: Action<T>, b: Action<T>, c: Action<T>)
    requires s.Shaped() && Enabled(s, a) && Enabled(Apply(s, a), b) && Enabled(Apply(Apply(s, a), b), c)
    ensures Legal(s, [a, b, c]) && Exec(s, [a, b, c]) == Apply(Apply(Apply(s, a), b), c)
  {
    Exec2(Apply(s, a), b, c);
    ExecCons(s, a, [b, c]);
    assert [a] + [b, c] == [a, b, c];
  }

  lemma Exec4<T>(s: State<T>, a: Action<T>, b: Action<T>, c: Action<T>, d: Action<T>)
    requires s.Shaped() && Enabled(s, a) && Enabled(Apply(s, a), b) && Enabled(Apply(Apply(s, a), b), c)
    requires Enabled(Apply(Apply(Apply(s, a), b), c), d)
    ensures Legal(s, [a, b, c, d]) && Exec(s, [a, b, c, d]) == Apply(Apply(Apply(Apply(s, a), b), c), d)
  {
    Exec3(Apply(s, a), b, c, d);
    ExecCons(s, a, [b, c, d]);
    assert [a] + [b, c, d] == [a, b, c, d];
  }

  ghost predicate Quiet<T>(s: State<T>) {
    Inv(s) && s.prod.PIdle? && s.cons.CIdle?
  }

  /** The actions of one uninterrupted emplace or pop. */
  function EmplaceActs<T>(x: T, counter: nat, ok: bool): seq<Action<T>> {
    [PCall(x), PLoadHead, PLoadTail(counter), PTest] + if ok then [PConstruct, PPublish] else []
  }

  function PopActs<T>(counter: nat, ok: bool): seq<Action<T>> {
    [CCall, CLoadTail, CLoadHead(counter), CTest] + if ok then [CMove, CDestroy, CPublish] else []
  }

  /** The state one uninterrupted emplace leaves, in one piece. */
  function EmplaceResult<T>(s: State<T>, x: T, counter: nat): State<T>
    requires s.Shaped()
  {
    if LooksFull(s, s.head, Wrap(counter)) then
      s.(prod := PIdle, seenTail := counter, pushReturns := s.pushReturns + [false], effects := s.effects + [PushFull])
    else
      var i := s.SlotIndex(s.head);
      s.(prod := PIdle, seenTail := counter, pushReturns := s.pushReturns + [true], effects := s.effects + [PushOk(x)],
         slots := s.slots[i := Live(|s.born|, x)], born := s.born + [x], fault := s.fault || !s.slots[i].Dead?,
         head := Wrap(s.head + 1), h := s.h + 1, pushed := s.pushed + [x])
  }

  lemma EmplaceProbe<T>(s: State<T>, x: T, counter: nat)
    requires s.Shaped() && s.prod.PIdle? && s.seenTail <= counter <= s.t
    ensures var probe := [PCall(x), PLoadHead, PLoadTail(counter), PTest];
            Legal(s, probe) &&
            Exec(s, probe) ==
              if LooksFull(s, s.head, Wrap(counter)) then EmplaceResult(s, x, counter)
              else s.(prod := PClear(x, s.head), seenTail := counter)
  {
    hide BitAnd, Pow2;
    Exec4(s, PCall(x), PLoadHead, PLoadTail(counter), PTest);
    assert s.effects + [] == s.effects;
  }

  lemma EmplaceFinish<T>(s: State<T>, x: T, counter: nat)
    requires s.Shaped() && s.prod.PIdle? && !LooksFull(s, s.head, Wrap(counter))
    ensures var s4 := s.(prod := PClear(x, s.head), seenTail := counter);
            Legal(s4, [PConstruct, PPublish]) && Exec(s4, [PConstruct, PPublish]) == EmplaceResult(s, x, counter)
  {
  }

  lemma EmplaceSteps<T>(s: State<T>, x: T, counter: nat)
    requires s.Shaped() && s.prod.PIdle? && s.seenTail <= counter <= s.t
    ensures var acts := EmplaceActs(x, counter, !LooksFull(s, s.head, Wrap(counter)));
            Legal(s, acts) && Exec(s, acts) == EmplaceResult(s, x, counter)
  {
    hide BitAnd, Pow2, Apply, Enabled, Legal, Exec, EmplaceResult, LooksFull;
    var probe := [PCall(x), PLoadHead, PLoadTail(counter), PTest];
    EmplaceProbe(s, x, counter);
    if LooksFull(s, s.head, Wrap(counter)) {
      assert EmplaceActs(x, counter, false) == probe;
    } else {
      EmplaceFinish(s, x, counter);
      ExecAppend(s, probe, [PConstruct, PPublish]);
    }
  }

  /** Running emplace without interruption, wherever the consumer is, for any value its load may return. */
  lemma EmplaceRun<T>(s: State<T>, x: T, counter: nat) returns (s': State<T>, ok: bool)
    requires Inv(s) && s.prod.PIdle? && s.seenTail <= counter <= s.t
    ensures ok == !LooksFull(s, s.head, Wrap(counter))
    ensures ok <==> s.h - counter < s.Cap()
    ensures Legal(s, EmplaceActs(x, counter, ok)) && s' == Exec(s, EmplaceActs(x, counter, ok))
    ensures s' == EmplaceResult(s, x, counter) && Inv(s') && s'.prod.PIdle? && s'.cons == s.cons
    ensures Queued(s') == Queued(s) + if ok then [x] else []
  {
    hide BitAnd, Pow2;
    WrapKeepsResidue(0, s.logCap);
    WrappedDistance(s.h, counter);
    EmplaceSteps(s, x, counter);
    s', ok := EmplaceResult(s, x, counter), !LooksFull(s, s.head, Wrap(counter));
    RunKeepsInv(s, EmplaceActs(x, counter, ok));
  }

  function PopResult<T>(s: State<T>, counter: nat): State<T>
    requires s.Shaped()
  {
    if Wrap(counter) == s.tail then
      s.(cons := CIdle, seenHead := counter, popReturns := s.popReturns + [None], effects := s.effects + [PopEmpty])
    else if !s.slots[s.SlotIndex(s.tail)].Live? then
      s.(fault := true)
    else
      var c := s.slots[s.SlotIndex(s.tail)];
      s.(cons := CIdle, seenHead := counter, popReturns := s.popReturns + [Some(c.value)],
         effects := s.effects + [PopOk(c.value)],
         slots := s.slots[s.SlotIndex(s.tail) := Dead], died := s.died + [c.serial],
         tail := Wrap(s.tail + 1), t := s.t + 1, popped := s.popped + [c.value])
  }

  lemma PopProbe<T>(s: State<T>, counter: nat)
    requires s.Shaped() && s.cons.CIdle? && s.seenHead <= counter <= s.h
    ensures var probe := [CCall, CLoadTail, CLoadHead(counter), CTest];
            Legal(s, probe) &&
            Exec(s, probe) ==
              if Wrap(counter) == s.tail then PopResult(s, counter)
              else s.(cons := CReady(s.tail), seenHead := counter)
  {
    hide BitAnd, Pow2;
    Exec4(s, CCall, CLoadTail, CLoadHead(counter), CTest);
    assert s.effects + [] == s.effects;
  }

  lemma PopFinish<T>(s: State<T>, counter: nat)
    requires s.Shaped() && s.cons.CIdle? && Wrap(counter) != s.tail
    requires s.slots[s.SlotIndex(s.tail)].Live?
    ensures var s4, finish := s.(cons := CReady(s.tail), seenHead := counter), [CMove, CDestroy, CPublish];
            Legal(s4, finish) && Exec(s4, finish) == PopResult(s, counter)
  {
    hide BitAnd, Pow2;
    var i := s.SlotIndex(s.tail);
    assert s.slots[i := MovedFrom(s.slots[i].serial)][i := Dead] == s.slots[i := Dead];
    Exec3(s.(cons := CReady(s.tail), seenHead := counter), CMove, CDestroy, CPublish);
  }

  lemma PopSteps<T>(s: State<T>, counter: nat)
    requires s.Shaped() && s.cons.CIdle? && s.seenHead <= counter <= s.h
    requires Wrap(counter) != s.tail ==> s.slots[s.SlotIndex(s.tail)].Live?
    ensures var acts := PopActs<T>(counter, Wrap(counter) != s.tail);
            Legal(s, acts) && Exec(s, acts) == PopResult(s, counter)
  {
    hide BitAnd, Pow2, Apply, Enabled, Legal, Exec, PopResult;
    var probe: seq<Action<T>> := [CCall, CLoadTail, CLoadHead(counter), CTest];
    PopProbe(s, counter);
    if Wrap(counter) == s.tail {
      assert PopActs<T>(counter, false) == probe;
    } else {
      PopFinish(s, counter);
      ExecAppend(s, probe, [CMove, CDestroy, CPublish]);
    }
  }

  lemma PopRun<T>(s: State<T>, counter: nat) returns (s': State<T>, r: Option<T>)
    requires Inv(s) && s.cons.CIdle? && s.seenHead <= counter <= s.h
    ensures r.Some? <==> Wrap(counter) != s.tail
    ensures r.Some? <==> s.t < counter
    ensures r.Some? ==> s.slots[s.SlotIndex(s.tail)].Live? && s.slots[s.SlotIndex(s.tail)].value == r.value
    ensures Legal(s, PopActs<T>(counter, r.Some?)) && s' == Exec(s, PopActs<T>(counter, r.Some?))
    ensures s' == PopResult(s, counter) && Inv(s') && s'.cons.CIdle? && s'.prod == s.prod
    ensures Queued(s) == (if r.Some? then [r.value] else []) + Queued(s')
  {
    hide BitAnd, Pow2;
    WrapKeepsResidue(0, s.logCap);
    WrappedDistance(counter, s.t);
    if s.t < counter {
      FrontSlot(s);
      r := Some(s.born[s.t]);
    } else {
      r := None;
    }
    PopSteps(s, counter);
    s' := PopResult(s, counter);
    RunKeepsInv(s, PopActs<T>(counter, r.Some?));
  }

  lemma DrainStep<T>(slots: seq<Slot<T>>, died: seq<nat>, head: nat, tail: nat)
    requires |slots| > 0 && head < WORD && tail < WORD && tail != head
    requires !Drain(slots, died, head, tail).fault
    ensures var i := BitAnd(tail, |slots| - 1);
            && !slots[i].Dead?
            && Drain(slots, died, head, tail) ==
               Drain(slots[i := Dead], died + [slots[i].serial], head, Wrap(tail + 1))
  {
  }

  lemma DrainDone<T>(slots: seq<Slot<T>>, died: seq<nat>, head: nat)
    requires |slots| > 0 && head < WORD
    ensures Drain(slots, died, head, head) == Drained(slots, died, false)
  {
  }

  /** What physical storage shows of a slot: an element, or no readable object. */
  function Erase<T>(c: Slot<T>): Option<T> {
    if c.Live? then Some(c.value) else None
  }

  /** Physical storage agrees with the slots of a step-machine state. */
  ghost predicate Mirrors<T>(memory: seq<Option<T>>, slots: seq<Slot<T>>) {
    |memory| == |slots| && forall i :: 0 <= i < |memory| ==> memory[i] == Erase(slots[i])
  }

  lemma MirrorsUpdate<T>(memory: seq<Option<T>>, slots: seq<Slot<T>>, i: nat, c: Slot<T>)
    requires Mirrors(memory, slots) && i < |slots|
    ensures Mirrors(memory[i := Erase(c)], slots[i := c])
  {
  }

  class SPSCQueue<T> {
    const logCap: nat
    var head: nat
    var tail: nat
    const storage: array<Option<T>>
    ghost var model: State<T>

    /** The fields are those of the step machine's state, seen through Erase. */
    ghost predicate Valid()
      reads this, storage
    {
      && logCap <= 63
      && Inv(model) && model.logCap == logCap
      && model.head == head && model.tail == tail
      && storage.Length == Pow2(logCap) && Mirrors(storage[..], model.slots)
    }

    constructor (logCap: nat)
      requires logCap <= 63
      ensures Valid() && this.logCap == logCap && fresh(storage)
      ensures model == Init<T>(logCap)
    {
      this.logCap := logCap;
      head, tail := 0, 0;
      storage := new Option<T>[Pow2(logCap)](_ => None);
      model := Init<T>(logCap);
      new;
      InitInv<T>(logCap);
    }

    /**
     * The loads and the test of emplace. `loaded` is what the load of the tail returned,
     * the wrapped value of the tail counter `counter`.
     */
    method BeginEmplace(x: T, loaded: nat, ghost counter: nat) returns (room: bool, h: nat)
      requires Valid() && model.prod.PIdle?
      requires model.seenTail <= counter <= model.t && loaded == Wrap(counter)
      modifies this`model
      ensures Valid() && h == head
      ensures room <==> old(model.h) - counter < Pow2(logCap)
      ensures model == if room then old(model).(prod := PClear(x, h), seenTail := counter)
                       else EmplaceResult(old(model), x, counter)
    {
      ghost var probe := [PCall(x), PLoadHead, PLoadTail(counter), PTest];
      EmplaceProbe(model, x, counter);
      RunKeepsInv(model, probe);
      FullTest(model, counter);
      hide Inv, Legal, Exec, EmplaceResult, BitAnd, Pow2;
      h := head;
      room := Wrap(h - loaded) != Pow2(logCap);
      model := Exec(model, probe);
    }

    /** construct_at on the slot of head. */
    method Construct(x: T, h: nat)
      requires Valid() && model.prod == PClear(x, h)
      modifies storage, this`model
      ensures Valid() && model == Apply(old(model), PConstruct)
    {
      StepKeepsInv(model, PConstruct);
      hide Inv, BitAnd, Pow2;
      var i := BitAnd(h, Pow2(logCap) - 1);
      MirrorsUpdate(storage[..], model.slots, i, Live(|model.born|, x));
      storage[i] := Some(x);
      assert storage[..] == old(storage[..])[i := Some(x)];
      model := Apply(model, PConstruct);
    }

    /** The release store of head. */
    method PublishHead(x: T, h: nat)
      requires Valid() && model.prod == PBuilt(x, h)
      modifies this`head, this`model
      ensures Valid() && model == Apply(old(model), PPublish)
    {
      StepKeepsInv(model, PPublish);
      hide Inv, BitAnd, Pow2;
      head := Wrap(h + 1);
      model := Apply(model, PPublish);
    }

    /** One call of emplace, wherever the consumer is in its own. */
    method Emplace(x: T, loaded: nat, ghost counter: nat) returns (ok: bool)
      requires Valid() && model.prod.PIdle?
      requires model.seenTail <= counter <= model.t && loaded == Wrap(counter)
      modifies this, storage
      ensures Valid()
      ensures model == EmplaceResult(old(model), x, counter)
      ensures ok <==> old(model.h) - counter < Pow2(logCap)
      ensures Queued(model) == old(Queued(model)) + if ok then [x] else []
    {
      ghost var model', ok' := EmplaceRun(model, x, counter);
      ghost var before := model;
      var h;
      hide Inv, Mirrors, BitAnd, Pow2, Legal;
      ok, h := BeginEmplace(x, loaded, counter);
      if ok {
        EmplaceFinish(before, x, counter);
        Exec2(model, PConstruct, PPublish);
        hide Exec, EmplaceResult;
        Construct(x, h);
        PublishHead(x, h);
      }
    }

    /** The loads and the test of pop. */
    method BeginPop(loaded: nat, ghost counter: nat) returns (ready: bool, t: nat)
      requires Valid() && model.cons.CIdle?
      requires model.seenHead <= counter <= model.h && loaded == Wrap(counter)
      modifies this`model
      ensures Valid() && t == tail
      ensures ready <==> old(model.t) < counter
      ensures ready <==> loaded != t
      ensures model == if ready then old(model).(cons := CReady(t), seenHead := counter)
                       else PopResult(old(model), counter)
    {
      ghost var probe: seq<Action<T>> := [CCall, CLoadTail, CLoadHead(counter), CTest];
      PopProbe(model, counter);
      RunKeepsInv(model, probe);
      EmptyTest(model, counter);
      hide Inv, Legal, Exec, PopResult, BitAnd, Pow2;
      t := tail;
      ready := loaded != t;
      model := Exec(model, probe);
    }

    /** out = std::move(*p); what is left behind is no longer readable. */
    method MoveOut(t: nat) returns (out: T)
      requires Valid() && model.cons == CReady(t)
      modifies storage, this`model
      ensures Valid() && model == Apply(old(model), CMove) && model.cons == CMoved(out, t)
    {
      StepKeepsInv(model, CMove);
      ConsumerSlotConstructed(model);
      hide Inv, BitAnd, Pow2;
      var i := BitAnd(t, Pow2(logCap) - 1);
      MirrorsUpdate(storage[..], model.slots, i, MovedFrom(model.slots[i].serial));
      out := storage[i].value;
      storage[i] := None;
      assert storage[..] == old(storage[..])[i := None];
      model := Apply(model, CMove);
    }

    /** destroy_at on the slot of tail: storage shows nothing readable there before and after. */
    method DestroyFront(t: nat, out: T)
      requires Valid() && model.cons == CMoved(out, t)
      modifies this`model
      ensures Valid() && model == Apply(old(model), CDestroy) && model.cons == CDestroyed(out, t)
    {
      StepKeepsInv(model, CDestroy);
      ConsumerSlotConstructed(model);
      hide Inv, BitAnd, Pow2;
      ghost var i := model.SlotIndex(t);
      MirrorsUpdate(storage[..], model.slots, i, Dead);
      assert storage[..][i := None] == storage[..];
      model := Apply(model, CDestroy);
    }

    /** The release store of tail. */
    method PublishTail(t: nat, out: T)
      requires Valid() && model.cons == CDestroyed(out, t)
      modifies this`tail, this`model
      ensures Valid() && model == Apply(old(model), CPublish)
    {
      StepKeepsInv(model, CPublish);
      hide Inv, BitAnd, Pow2;
      tail := Wrap(t + 1);
      model := Apply(model, CPublish);
    }

    /** One call of pop, wherever the producer is in its own. */
    method Pop(loaded: nat, ghost counter: nat) returns (r: Option<T>)
      requires Valid() && model.cons.CIdle?
      requires model.seenHead <= counter <= model.h && loaded == Wrap(counter)
      modifies this, storage
      ensures Valid()
      ensures model == PopResult(old(model), counter)
      ensures r.Some? <==> old(model.t) < counter
      ensures old(Queued(model)) == (if r.Some? then [r.value] else []) + Queued(model)
    {
      ghost var model', r' := PopRun(model, counter);
      ghost var before := model;
      var ready, t;
      hide Inv, Mirrors, BitAnd, Pow2, Legal;
      ready, t := BeginPop(loaded, counter);
      if ready {
        PopFinish(before, counter);
        Exec3(model, CMove, CDestroy, CPublish);
        hide Exec, PopResult;
        var out := MoveOut(t);
        DestroyFront(t, out);
        PublishTail(t, out);
        r := Some(out);
      } else {
        r := None;
      }
    }

    /** The destructor's drain, with no other thread active. */
    method Destroy() returns (ghost died: seq<nat>)
      requires Valid() && Quiet(model)
      modifies storage
      ensures forall i :: 0 <= i < storage.Length ==> storage[i].None?
      ensures died == Iota(|model.born|)
    {
      DrainDestroysTheRest(model);
      hide BitAnd, Pow2, Inv, Drain, Wrap, Iota, Mirrors;
      var t: nat := tail;
      died := model.died;
      ghost var slots := model.slots;
      ghost var drained := Drain(model.slots, model.died, head, tail);
      while t != head
        invariant t < WORD && head < WORD && |slots| == storage.Length > 0
        invariant Mirrors(storage[..], slots)
        invariant Drain(slots, died, head, t) == drained
        decreases Wrap(head - t)
      {
        WrappedDistanceDrops(head, t);
        slots, died := DestroyNext(t, slots, died);
        t := Wrap(t + 1);
      }
      DrainDone(slots, died, head);
      NothingReadable(storage[..], slots);
    }

    /** One turn of the drain. */
    method DestroyNext(t: nat, ghost slots: seq<Slot<T>>, ghost died: seq<nat>)
      returns (ghost slots': seq<Slot<T>>, ghost died': seq<nat>)
      requires t < WORD && head < WORD && t != head && |slots| == storage.Length > 0
      requires Mirrors(storage[..], slots) && !Drain(slots, died, head, t).fault
      modifies storage
      ensures |slots'| == |slots| && Mirrors(storage[..], slots')
      ensures Drain(slots', died', head, Wrap(t + 1)) == Drain(slots, died, head, t)
    {
      DrainStep(slots, died, head, t);
      hide BitAnd, Drain, Wrap, Mirrors;
      var i := BitAnd(t, storage.Length - 1);
      MirrorsUpdate(storage[..], slots, i, Dead);
      slots', died' := slots[i := Dead], died + [slots[i].serial];
      storage[i] := None;
      assert storage[..] == old(storage[..])[i := None];
    }
  }

  lemma NothingReadable<T>(memory: seq<Option<T>>, slots: seq<Slot<T>>)
    requires Mirrors(memory, slots) && forall i :: 0 <= i < |slots| ==> slots[i].Dead?
    ensures forall i :: 0 <= i < |memory| ==> memory[i].None?
  {
  }

  // ------------------------------------------------------ what the promises exclude

  /**
   * A pop that loads a stale head reports empty although a push has returned: the
   * conditions on the loads of failing calls are not idle.
   */
  lemma StaleLoadFailsSpuriously<T>(x: T)
    ensures var acts := EmplaceActs(x, 0, true) + PopActs<T>(0, false);
            && Legal(Init<T>(1), acts)
            && var s := Exec(Init<T>(1), acts);
            && s.pushReturns == [true] && s.popReturns == [None]
            && Replay(2, s.effects) == None
  {
    InitInv<T>(1);
    FirstPush(x);
    var s, ok := EmplaceRun(Init<T>(1), x, 0);
    StalePop(s, x);
    ExecAppend(Init<T>(1), EmplaceActs(x, 0, true), PopActs<T>(0, false));
  }

  lemma FirstPush<T>(x: T)
    ensures var s := EmplaceResult(Init<T>(1), x, 0);
            && !LooksFull(Init<T>(1), 0, 0)
            && s.pushReturns == [true] && s.popReturns == [] && s.effects == [PushOk(x)]
            && s.tail == 0 && s.h == 1 && s.seenHead == 0
  {
  }

  lemma StalePop<T>(s: State<T>, x: T)
    requires Quiet(s) && s.tail == 0 && s.popReturns == [] && s.effects == [PushOk(x)] && s.seenHead == 0
    ensures Legal(s, PopActs<T>(0, false))
    ensures var s' := Exec(s, PopActs<T>(0, false));
            s'.popReturns == [None] && s'.pushReturns == s.pushReturns && Replay(2, s'.effects) == None
  {
    PopSteps(s, 0);
    ReplaySnoc(2, [], PushOk(x));
    assert [] + [PushOk(x)] == [PushOk(x)];
    ReplaySnoc(2, [PushOk(x)], PopEmpty);
  }

  lemma StepTailAdvances<T>(s: State<T>, a: Action<T>)
    requires s.Shaped() && Enabled(s, a)
    ensures s.t <= Apply(s, a).t
  {
    hide BitAnd, Pow2, Wrap;
  }

  /** Counters only go up. */
  lemma {:induction false} TailAdvances<T>(s: State<T>, acts: seq<Action<T>>)
    requires s.Shaped() && Legal(s, acts)
    ensures s.t <= Exec(s, acts).t
    decreases acts
  {
    if acts != [] {
      hide Apply, Enabled;
      StepTailAdvances(s, acts[0]);
      TailAdvances(Apply(s, acts[0]), acts[1..]);
    }
  }

  /**
   * size() from a third thread, which loads head and some time later tail: within the
   * capacity exactly when no element pushed after the first load was popped before the
   * second. Fewer than 2^64 - kCapacity such elements cannot bring it round again.
   */
  lemma {:induction false} ObserverSizeIff<T>(logCap: nat, before: seq<Action<T>>, between: seq<Action<T>>)
    requires logCap <= 63 && Legal(Init<T>(logCap), before) && Legal(Exec(Init<T>(logCap), before), between)
    requires var s := Exec(Init<T>(logCap), before);
             Exec(s, between).t - s.h < WORD - s.Cap()
    ensures var s := Exec(Init<T>(logCap), before);
            var s' := Exec(s, between);
            Wrap(s.head - s'.tail) <= s.Cap() <==> s'.t <= s.h
  {
    hide Inv, Wrap, Pow2, Apply, Enabled;
    var s := Exec(Init<T>(logCap), before);
    ReachedInv(logCap, before);
    RunKeepsInv(s, between);
    TailAdvances(s, between);
    ObserverSize(s, Exec(s, between));
  }

  lemma {:induction false} ReachedInv<T>(logCap: nat, acts: seq<Action<T>>)
    requires logCap <= 63 && Legal(Init<T>(logCap), acts)
    ensures Inv(Exec(Init<T>(logCap), acts))
  {
    InitInv<T>(logCap);
    hide Inv;
    RunKeepsInv(Init<T>(logCap), acts);
  }

  lemma ObserverSize<T>(s: State<T>, s': State<T>)
    requires Inv(s) && Inv(s') && s.t <= s'.t && s'.t - s.h < WORD - s.Cap()
    ensures Wrap(s.head - s'.tail) <= s.Cap() <==> s'.t <= s.h
  {
    hide BitAnd, Pow2, Wrap, ThreadsOk, LogsOk, SlotsOk;
    WrapKeepsResidue(0, s.logCap);
    if s'.t <= s.h {
      WrappedDistance(s.h, s'.t);
    } else {
      ReversedDistance(s.h, s'.t);
    }
  }

  lemma ReversedDistance(h: nat, t: nat)
    requires h < t < h + WORD
    ensures Wrap(Wrap(h) - Wrap(t)) == WORD - (t - h)
  {
    WrappedDistance(t, h);
    assert Wrap(Wrap(t) - Wrap(h)) == t - h;
  }

  /** One push and one pop between the two loads: a third thread reads 2^64 - 1. */
  lemma ObserverSizeWraps<T>(x: T)
    ensures var acts := EmplaceActs(x, 0, true) + PopActs<T>(1, true);
            && Legal(Init<T>(1), acts)
            && Wrap(Init<T>(1).head - Exec(Init<T>(1), acts).tail) == WORD - 1
  {
    InitInv<T>(1);
    FirstPush(x);
    var s, ok := EmplaceRun(Init<T>(1), x, 0);
    var s', r := PopRun(s, 1);
    ExecAppend(Init<T>(1), EmplaceActs(x, 0, true), PopActs<T>(1, true));
  }
}

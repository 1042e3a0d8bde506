/** Slot ownership, index arithmetic, sizes and the destructor of the ring buffer. */
module SpscSafety {
  import opened Options
  import opened Words
  import opened SpscMachine
  import opened SpscProofs
  import opened SpscTheorems

  /**
   * The slot each thread is about to touch is in the right state, the two slots
   * differ, and the index the thread has acquired proves the other side is done with it.
   */
  ghost predicate AccessesSafe<T>(s: State<T>)
    requires s.Shaped()
  {
    && !s.fault
    && (s.prod.PClear? ==>
          && s.slots[s.SlotIndex(s.prod.head)].Dead?
          && s.h - s.Cap() < s.seenTail)
    && (s.cons.CReady? ==>
          && s.t < s.seenHead && s.t < |s.pushed|
          && s.slots[s.SlotIndex(s.cons.tail)] == Live(s.t, s.pushed[s.t]))
    && (s.cons.CMoved? ==> s.slots[s.SlotIndex(s.cons.tail)] == MovedFrom(s.t))
    && ((s.prod.PClear? || s.prod.PBuilt?) && (s.cons.CReady? || s.cons.CMoved? || s.cons.CDestroyed?) ==>
          s.SlotIndex(s.prod.head) != s.SlotIndex(s.cons.tail))
  }

  lemma ProducerSlotDead<T>(s: State<T>)
    requires Inv(s) && s.prod.PClear?
    ensures s.slots[s.SlotIndex(s.prod.head)].Dead?
  {
    SlotOfCounter(s.h, s.logCap);
    assert s.slots[s.h % s.Cap()] == Expected(s, s.h);
  }

  lemma ConsumerSlotConstructed<T>(s: State<T>)
    requires Inv(s) && (s.cons.CReady? || s.cons.CMoved?)
    ensures s.t < |s.pushed|
    ensures s.slots[s.SlotIndex(s.cons.tail)] == if s.cons.CMoved? then MovedFrom(s.t) else Live(s.t, s.pushed[s.t])
  {
    SlotOfCounter(s.t, s.logCap);
    assert s.slots[s.t % s.Cap()] == Expected(s, s.t);
  }

  lemma SlotsDiffer<T>(s: State<T>)
    requires Inv(s) && (s.prod.PClear? || s.prod.PBuilt?)
    requires s.cons.CReady? || s.cons.CMoved? || s.cons.CDestroyed?
    ensures s.SlotIndex(s.prod.head) != s.SlotIndex(s.cons.tail)
  {
    SlotOfCounter(s.h, s.logCap);
    SlotOfCounter(s.t, s.logCap);
    OtherSlot(s.t, s.h, s.Cap());
  }

  lemma InvIsSafe<T>(s: State<T>)
    requires Inv(s)
    ensures AccessesSafe(s)
  {
    if s.prod.PClear? {
      ProducerSlotDead(s);
    }
    if s.cons.CReady? || s.cons.CMoved? {
      ConsumerSlotConstructed(s);
    }
    if (s.prod.PClear? || s.prod.PBuilt?) && (s.cons.CReady? || s.cons.CMoved? || s.cons.CDestroyed?) {
      SlotsDiffer(s);
    }
  }

  lemma {:induction false} EveryAccessIsSafe<T>(logCap: nat, acts: seq<Action<T>>)
    requires logCap <= 63 && Legal(Init<T>(logCap), acts)
    ensures AccessesSafe(Exec(Init<T>(logCap), acts))
  {
    FifoUnderStaleLoads(logCap, acts);
    InvIsSafe(Exec(Init<T>(logCap), acts));
  }

  /** The wrapped indices say the truth about the counters behind them, however large those grow. */
  ghost predicate IndicesFaithful<T>(s: State<T>) {
    && s.t <= s.h
    && Wrap(s.head - s.tail) == s.h - s.t <= s.Cap()
    && s.SlotIndex(s.head) == s.h % s.Cap()
    && s.SlotIndex(s.tail) == s.t % s.Cap()
    && (forall i: nat, j: nat :: s.t <= i < j < s.h ==> s.SlotIndex(Wrap(i)) != s.SlotIndex(Wrap(j)))
  }

  lemma InvIndicesFaithful<T>(s: State<T>)
    requires Inv(s)
    ensures IndicesFaithful(s)
  {
    DistanceFaithful(s);
    SlotOfCounter(s.h, s.logCap);
    SlotOfCounter(s.t, s.logCap);
    forall i: nat, j: nat | s.t <= i < j < s.h
      ensures s.SlotIndex(Wrap(i)) != s.SlotIndex(Wrap(j))
    {
      LiveIndicesDiffer(s, i, j);
    }
  }

  lemma DistanceFaithful<T>(s: State<T>)
    requires Inv(s)
    ensures Wrap(s.head - s.tail) == s.h - s.t <= s.Cap()
  {
    hide BitAnd, Pow2;
    WrapKeepsResidue(0, s.logCap);
    WrappedDistance(s.h, s.t);
  }

  lemma LiveIndicesDiffer<T>(s: State<T>, i: nat, j: nat)
    requires CountersOk(s) && s.t <= i < j < s.h
    ensures s.SlotIndex(Wrap(i)) != s.SlotIndex(Wrap(j))
  {
    hide BitAnd, Pow2;
    SlotOfCounter(i, s.logCap);
    SlotOfCounter(j, s.logCap);
    OtherSlot(i, j, s.Cap());
  }

  lemma {:induction false} IndicesAreFaithful<T>(logCap: nat, acts: seq<Action<T>>)
    requires logCap <= 63 && Legal(Init<T>(logCap), acts)
    ensures IndicesFaithful(Exec(Init<T>(logCap), acts))
  {
    FifoUnderStaleLoads(logCap, acts);
    InvIndicesFaithful(Exec(Init<T>(logCap), acts));
  }

  ghost predicate SizesOk<T>(s: State<T>) {
    forall n :: n in s.sizes ==> n <= s.Cap()
  }

  lemma StepKeepsSizes<T>(s: State<T>, a: Action<T>)
    requires Inv(s) && Enabled(s, a) && SizesOk(s)
    ensures SizesOk(Apply(s, a))
  {
    hide BitAnd, Pow2;
    WrapKeepsResidue(0, s.logCap);
    match a {
      case PSize(c) => WrappedDistance(s.h, c);
      case CSize(c) => WrappedDistance(c, s.t);
      case _ =>
    }
  }

  lemma {:induction false} RunKeepsSizes<T>(s: State<T>, acts: seq<Action<T>>)
    requires Inv(s) && Legal(s, acts) && SizesOk(s)
    ensures SizesOk(Exec(s, acts))
    decreases acts
  {
    if acts != [] {
      StepKeepsInv(s, acts[0]);
      StepKeepsSizes(s, acts[0]);
      RunKeepsSizes(Apply(s, acts[0]), acts[1..]);
    }
  }

  /** No call of size() from either endpoint ever returns more than the capacity, stale loads included. */
  lemma {:induction false} SizeNeverExceedsCapacity<T>(logCap: nat, acts: seq<Action<T>>)
    requires logCap <= 63 && Legal(Init<T>(logCap), acts)
    ensures forall n :: n in Exec(Init<T>(logCap), acts).sizes ==> n <= Pow2(logCap)
  {
    InitInv<T>(logCap);
    RunKeepsSizes(Init<T>(logCap), acts);
    RunKeepsInv(Init<T>(logCap), acts);
    SameCap(Init<T>(logCap), acts);
  }

  lemma {:induction false} SameCap<T>(s: State<T>, acts: seq<Action<T>>)
    requires s.Shaped() && Legal(s, acts)
    ensures Exec(s, acts).logCap == s.logCap
    decreases acts
  {
    if acts != [] {
      SameCap(Apply(s, acts[0]), acts[1..]);
    }
  }

  // ----------------------------------------------------------------- full and empty

  ghost predicate SameProducer<T>(s: State<T>, s': State<T>) {
    s'.prod == s.prod && s'.head == s.head && s'.h == s.h && s'.seenTail == s.seenTail && s'.logCap == s.logCap
  }

  ghost predicate SameConsumer<T>(s: State<T>, s': State<T>) {
    s'.cons == s.cons && s'.tail == s.tail && s'.t == s.t && s'.seenHead == s.seenHead && s'.logCap == s.logCap
  }

  lemma StepIsOneThreads<T>(s: State<T>, a: Action<T>)
    requires s.Shaped() && Enabled(s, a)
    ensures if ByConsumer(a) then SameProducer(s, Apply(s, a)) else SameConsumer(s, Apply(s, a))
  {
  }

  /** Neither thread changes the other's locals or the other's index. */
  lemma {:induction false} RunIsOneThreads<T>(s: State<T>, acts: seq<Action<T>>, consumer: bool)
    requires s.Shaped() && Legal(s, acts)
    requires forall i :: 0 <= i < |acts| ==> (ByConsumer(acts[i]) <==> consumer)
    ensures if consumer then SameProducer(s, Exec(s, acts)) else SameConsumer(s, Exec(s, acts))
    decreases acts
  {
    if acts != [] {
      hide Apply, Enabled, ByConsumer;
      StepIsOneThreads(s, acts[0]);
      RunIsOneThreads(Apply(s, acts[0]), acts[1..], consumer);
    }
  }

  lemma FullTest<T>(s: State<T>, counter: nat)
    requires Inv(s) && s.seenTail <= counter <= s.t
    ensures LooksFull(s, s.head, Wrap(counter)) <==> s.h - counter == s.Cap()
    ensures s.h - counter <= s.Cap()
  {
    hide BitAnd, Pow2, ThreadsOk, LogsOk, SlotsOk, Wrap;
    WrapKeepsResidue(0, s.logCap);
    WrappedDistance(s.h, counter);
  }

  lemma EmptyTest<T>(s: State<T>, counter: nat)
    requires Inv(s) && s.seenHead <= counter <= s.h
    ensures Wrap(counter) == s.tail <==> counter == s.t
    ensures s.t <= counter
  {
    hide BitAnd, Pow2, ThreadsOk, LogsOk, SlotsOk, Wrap;
    WrapKeepsResidue(0, s.logCap);
    WrappedDistance(counter, s.t);
    WrappedDistance(s.t, s.t);
  }

  /**
   * Once the producer has seen room (full() false), its next emplace succeeds whatever the
   * consumer does meanwhile and whichever value the load of tail returns.
   */
  lemma {:induction false} SeenRoomStays<T>(s: State<T>, seen: nat, acts: seq<Action<T>>, load: nat)
    requires Inv(s) && s.prod.PIdle? && seen == s.seenTail && !LooksFull(s, s.head, Wrap(seen))
    requires Legal(s, acts) && forall i :: 0 <= i < |acts| ==> ByConsumer(acts[i])
    requires Exec(s, acts).seenTail <= load <= Exec(s, acts).t
    ensures !LooksFull(Exec(s, acts), Exec(s, acts).head, Wrap(load))
  {
    hide Inv, LooksFull, Apply, Wrap;
    InvOrder(s);
    RunKeepsInv(s, acts);
    RunIsOneThreads(s, acts, true);
    FullTest(s, seen);
    FullTest(Exec(s, acts), load);
  }

  /** Once the consumer has seen an element (empty() false), its next pop succeeds whatever the producer does. */
  lemma {:induction false} SeenElementStays<T>(s: State<T>, seen: nat, acts: seq<Action<T>>, load: nat)
    requires Inv(s) && s.cons.CIdle? && seen == s.seenHead && Wrap(seen) != s.tail
    requires Legal(s, acts) && forall i :: 0 <= i < |acts| ==> !ByConsumer(acts[i])
    requires Exec(s, acts).seenHead <= load <= Exec(s, acts).h
    ensures Wrap(load) != Exec(s, acts).tail
  {
    hide Inv, Apply, Wrap;
    InvOrder(s);
    RunKeepsInv(s, acts);
    RunIsOneThreads(s, acts, false);
    EmptyTest(s, seen);
    EmptyTest(Exec(s, acts), load);
  }

  lemma InvOrder<T>(s: State<T>)
    requires Inv(s)
    ensures s.Shaped() && s.seenTail <= s.t <= s.seenHead <= s.h
  {
  }

  // -------------------------------------------------------------------- destructor

  datatype Drained<T> = Drained(slots: seq<Slot<T>>, died: seq<nat>, fault: bool)

  /** The destructor's loop from a wrapped tail: destroy the slot, advance, stop at head. */
  function Drain<T>(slots: seq<Slot<T>>, died: seq<nat>, head: nat, tail: nat): (d: Drained<T>)
    requires |slots| > 0 && head < WORD && tail < WORD
    ensures |d.slots| == |slots|
    decreases Wrap(head - tail)
  {
    if tail == head then Drained(slots, died, false)
    else
      var i := BitAnd(tail, |slots| - 1);
      if slots[i].Dead? then Drained(slots, died, true)
      else
        WrappedDistanceDrops(head, tail);
        Drain(slots[i := Dead], died + [slots[i].serial], head, Wrap(tail + 1))
  }

  /** The state a completed pop would leave: used to follow the destructor. */
  ghost function AfterOne<T>(s: State<T>): State<T>
    requires Inv(s) && s.t < s.h
  {
    var i := s.SlotIndex(s.tail);
    s.(slots := s.slots[i := Dead], died := s.died + [s.t], t := s.t + 1, tail := Wrap(s.t + 1),
       seenHead := s.h, popped := s.popped + [s.born[s.t]])
  }

  lemma FrontSlot<T>(s: State<T>)
    requires Inv(s) && s.t < s.h && s.cons.CIdle?
    ensures s.SlotIndex(s.tail) == s.t % s.Cap()
    ensures s.slots[s.SlotIndex(s.tail)] == Live(s.t, s.born[s.t])
  {
    hide BitAnd, Pow2;
    SlotOfCounter(s.t, s.logCap);
    assert s.slots[s.t % s.Cap()] == Expected(s, s.t);
  }

  lemma AfterOneSlot<T>(s: State<T>, i: nat)
    requires Inv(s) && s.t < s.h && s.prod.PIdle? && s.cons.CIdle?
    requires s.t < i <= s.t + s.Cap()
    ensures AfterOne(s).slots[i % s.Cap()] == Expected(AfterOne(s), i)
  {
    hide BitAnd, Pow2;
    FrontSlot(s);
    if i == s.t + s.Cap() {
      ResidueShift(s.t, s.Cap());
    } else {
      OtherSlot(i, s.t, s.Cap());
      assert s.slots[i % s.Cap()] == Expected(s, i);
    }
  }

  lemma AfterOneInv<T>(s: State<T>)
    requires Inv(s) && s.t < s.h && s.prod.PIdle? && s.cons.CIdle?
    ensures Inv(AfterOne(s))
    ensures s.slots[s.SlotIndex(s.tail)] == Live(s.t, s.born[s.t])
  {
    hide BitAnd, Pow2, Expected;
    FrontSlot(s);
    var s' := AfterOne(s);
    assert s'.died == Iota(Low(s'));
    forall i: nat | Low(s') <= i < Low(s') + s.Cap()
      ensures s'.slots[i % s.Cap()] == Expected(s', i)
    {
      AfterOneSlot(s, i);
    }
  }

  lemma {:induction false} DrainDestroysTheRest<T>(s: State<T>)
    requires Inv(s) && s.prod.PIdle? && s.cons.CIdle?
    ensures var d := Drain(s.slots, s.died, s.head, s.tail);
            && !d.fault
            && d.died == Iota(|s.born|)
            && (forall i :: 0 <= i < |d.slots| ==> d.slots[i].Dead?)
    decreases s.h - s.t
  {
    hide BitAnd, Pow2;
    WrapKeepsResidue(0, s.logCap);
    WrappedDistance(s.h, s.t);
    if s.t == s.h {
      forall i | 0 <= i < |s.slots| ensures s.slots[i].Dead? {
        EverySlotInWindow(s, i);
      }
    } else {
      AfterOneInv(s);
      WrapSucc(s.t);
      DrainDestroysTheRest(AfterOne(s));
    }
  }

  /** Every slot is the slot of some counter in the current window. */
  lemma EverySlotInWindow<T>(s: State<T>, i: nat)
    requires Inv(s) && i < s.Cap() && s.t == s.h && s.prod.PIdle? && s.cons.CIdle?
    ensures s.slots[i].Dead?
  {
    var n := CounterOfSlot(s.t, s.Cap(), i);
    assert s.slots[n % s.Cap()] == Expected(s, n);
  }

  lemma CounterOfSlot(t: nat, c: nat, i: nat) returns (n: nat)
    requires i < c
    ensures t <= n < t + c && n % c == i
  {
    var q, r := t / c, t % c;
    assert t == c * q + r;
    if i >= r {
      n := c * q + i;
      DivModUnique(n, c, q, i);
    } else {
      n := c * q + c + i;
      assert c * (q + 1) == c * q + c;
      DivModUnique(n, c, q + 1, i);
    }
  }

  /**
   * When both threads are done, the destructor leaves every constructed element
   * destroyed exactly once and every slot empty, whatever happened before.
   */
  lemma {:induction false} EveryElementDestroyedOnce<T>(logCap: nat, acts: seq<Action<T>>)
    requires logCap <= 63 && Legal(Init<T>(logCap), acts)
    requires Exec(Init<T>(logCap), acts).prod.PIdle? && Exec(Init<T>(logCap), acts).cons.CIdle?
    ensures var s := Exec(Init<T>(logCap), acts);
            && s.head < WORD && s.tail < WORD
            && var d := Drain(s.slots, s.died, s.head, s.tail);
            && !d.fault
            && (forall i :: 0 <= i < |d.slots| ==> d.slots[i].Dead?)
            && |d.died| == |s.born|
            && (forall n: nat :: n < |s.born| ==> multiset(d.died)[n] == 1)
  {
    FifoUnderStaleLoads(logCap, acts);
    var s := Exec(Init<T>(logCap), acts);
    DrainDestroysTheRest(s);
    forall n: nat | n < |s.born| ensures multiset(Iota(|s.born|))[n] == 1 {
      IotaOnce(|s.born|, n);
    }
  }

  lemma {:induction false} IotaOnce(m: nat, n: nat)
    ensures multiset(Iota(m))[n] == if n < m then 1 else 0
    decreases m
  {
    if m > 0 {
      assert Iota(m) == Iota(m - 1) + [m - 1];
      IotaOnce(m - 1, n);
    }
  }
}

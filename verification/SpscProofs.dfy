/** What every interleaving of the ring buffer's two threads keeps. */
module SpscProofs {
  import opened Options
  import opened Words
  import opened SpscMachine

  /** First counter whose element has not been destroyed, and first not yet constructed. */
  ghost function Low<T>(s: State<T>): nat {
    s.t + if s.cons.CDestroyed? then 1 else 0
  }

  ghost function High<T>(s: State<T>): nat {
    s.h + if s.prod.PBuilt? then 1 else 0
  }

  ghost function Iota(n: nat): seq<nat> {
    seq(n, i => i)
  }

  ghost predicate CountersOk<T>(s: State<T>) {
    && s.logCap <= 63
    && s.Shaped()
    && s.head == Wrap(s.h) && s.tail == Wrap(s.t)
    && s.t <= s.seenHead <= s.h
    && s.seenTail <= s.t
    && s.h - s.seenTail <= s.Cap()
  }

  ghost predicate ThreadsOk<T>(s: State<T>) {
    && (match s.prod
        case PIdle | PCalled(_) => true
        case PHaveHead(_, head) => head == Wrap(s.h)
        case PHaveBoth(_, head, tail) => head == Wrap(s.h) && tail == Wrap(s.seenTail)
        case PClear(_, head) => head == Wrap(s.h) && s.h - s.seenTail < s.Cap()
        case PBuilt(_, head) => head == Wrap(s.h) && s.h - s.seenTail < s.Cap())
    && (match s.cons
        case CIdle | CCalled => true
        case CHaveTail(tail) => tail == Wrap(s.t)
        case CHaveBoth(tail, head) => tail == Wrap(s.t) && head == Wrap(s.seenHead)
        case CReady(tail) => tail == Wrap(s.t) && s.t < s.seenHead
        case CMoved(_, tail) => tail == Wrap(s.t) && s.t < s.seenHead
        case CDestroyed(_, tail) => tail == Wrap(s.t) && s.t < s.seenHead)
  }

  ghost predicate LogsOk<T>(s: State<T>) {
    && |s.born| == High(s)
    && s.pushed == s.born[..s.h]
    && (s.prod.PBuilt? ==> s.born[s.h] == s.prod.x)
    && s.died == Iota(Low(s))
    && s.t <= |s.born| && s.popped == s.born[..s.t]
    && (s.cons.CMoved? || s.cons.CDestroyed? ==> s.t < s.h && s.cons.out == s.born[s.t])
  }

  /** What the slot of counter i holds, for i in the window of one capacity from Low. */
  ghost function Expected<T>(s: State<T>, i: nat): Slot<T>
    requires |s.born| == High(s)
  {
    if i >= High(s) then Dead
    else if i == s.t && s.cons.CMoved? then MovedFrom(i)
    else Live(i, s.born[i])
  }

  ghost predicate SlotsOk<T>(s: State<T>)
    requires s.Shaped() && |s.born| == High(s)
  {
    forall i: nat :: Low(s) <= i < Low(s) + s.Cap() ==> s.slots[i % s.Cap()] == Expected(s, i)
  }

  ghost predicate Inv<T>(s: State<T>) {
    && CountersOk(s)
    && ThreadsOk(s)
    && LogsOk(s)
    && SlotsOk(s)
    && !s.fault
  }

  lemma InitInv<T>(logCap: nat)
    requires logCap <= 63
    ensures Inv(Init<T>(logCap))
  {
  }

  lemma {:induction false} StepKeepsInv<T>(s: State<T>, a: Action<T>)
    requires Inv(s) && Enabled(s, a)
    ensures Inv(Apply(s, a))
  {
    hide BitAnd, Pow2;
    match a {
      case PConstruct => ConstructKeepsInv(s);
      case CMove => MoveKeepsInv(s);
      case CDestroy => DestroyKeepsInv(s);
      case _ =>
        WrapKeepsResidue(0, s.logCap);
        IndexStepKeepsCounters(s, a);
        IndexStepKeepsLogs(s, a);
        IndexStepKeepsSlots(s, a);
    }
  }

  lemma IndexStepKeepsCounters<T>(s: State<T>, a: Action<T>)
    requires Inv(s) && Enabled(s, a) && !a.PConstruct? && !a.CMove? && !a.CDestroy?
    ensures CountersOk(Apply(s, a)) && ThreadsOk(Apply(s, a)) && !Apply(s, a).fault
  {
    hide LogsOk, SlotsOk, CountersOk, ThreadsOk, Apply, Enabled;
    if ByConsumer(a) {
      ConsumerKeepsCounters(s, a);
    } else {
      ProducerKeepsCounters(s, a);
    }
  }

  lemma ProducerKeepsCounters<T>(s: State<T>, a: Action<T>)
    requires CountersOk(s) && ThreadsOk(s) && !s.fault && Enabled(s, a) && !ByConsumer(a) && !a.PConstruct?
    ensures CountersOk(Apply(s, a)) && ThreadsOk(Apply(s, a)) && !Apply(s, a).fault
  {
    hide BitAnd, Pow2, Wrap;
    WrapKeepsResidue(0, s.logCap);
    if a.PTest? {
      WrappedDistance(s.h, s.seenTail);
    } else if a.PPublish? {
      WrapSucc(s.h);
    }
  }

  lemma ConsumerKeepsCounters<T>(s: State<T>, a: Action<T>)
    requires CountersOk(s) && ThreadsOk(s) && !s.fault
    requires Enabled(s, a) && ByConsumer(a) && !a.CMove? && !a.CDestroy?
    ensures CountersOk(Apply(s, a)) && ThreadsOk(Apply(s, a)) && !Apply(s, a).fault
  {
    hide BitAnd, Pow2, Wrap;
    WrapKeepsResidue(0, s.logCap);
    if a.CTest? {
      WrappedDistance(s.seenHead, s.t);
      WrappedDistance(s.t, s.t);
    } else if a.CPublish? {
      WrapSucc(s.t);
    }
  }

  lemma WrapSucc(n: nat)
    ensures Wrap(Wrap(n) + 1) == Wrap(n + 1)
  {
  }

  lemma IndexStepKeepsLogs<T>(s: State<T>, a: Action<T>)
    requires Inv(s) && Enabled(s, a) && !a.PConstruct? && !a.CMove? && !a.CDestroy?
    ensures LogsOk(Apply(s, a))
  {
    hide BitAnd, Pow2;
  }

  lemma IndexStepKeepsSlots<T>(s: State<T>, a: Action<T>)
    requires Inv(s) && Enabled(s, a) && !a.PConstruct? && !a.CMove? && !a.CDestroy?
    requires LogsOk(Apply(s, a))
    ensures SlotsOk(Apply(s, a))
  {
    hide BitAnd, Pow2;
    var s' := Apply(s, a);
    assert s'.slots == s.slots && s'.born == s.born && Low(s') == Low(s) && High(s') == High(s);
    forall i: nat | Low(s) <= i < Low(s) + s.Cap()
      ensures s'.slots[i % s.Cap()] == Expected(s', i)
    {
      assert Expected(s', i) == Expected(s, i);
    }
  }

  lemma ConstructKeepsInv<T>(s: State<T>)
    requires Inv(s) && s.prod.PClear?
    ensures Inv(Apply(s, PConstruct))
  {
    hide BitAnd, Pow2;
    SlotOfCounter(s.h, s.logCap);
    var s' := Apply(s, PConstruct);
    forall i: nat | Low(s) <= i < Low(s) + s.Cap()
      ensures s'.slots[i % s.Cap()] == Expected(s', i)
    {
      OtherSlot(i, s.h, s.Cap());
    }
  }

  lemma OtherSlot(i: nat, j: nat, c: nat)
    requires c > 0 && i < j + c && j < i + c
    ensures i % c == j % c ==> i == j
  {
    if i % c == j % c {
      if i <= j { ResidueInjective(i, j, c); } else { ResidueInjective(j, i, c); }
    }
  }

  lemma MoveKeepsInv<T>(s: State<T>)
    requires Inv(s) && s.cons.CReady?
    ensures Inv(Apply(s, CMove))
  {
    hide BitAnd, Pow2;
    SlotOfCounter(s.t, s.logCap);
    var s' := Apply(s, CMove);
    forall i: nat | Low(s) <= i < Low(s) + s.Cap()
      ensures s'.slots[i % s.Cap()] == Expected(s', i)
    {
      OtherSlot(i, s.t, s.Cap());
    }
  }

  lemma DestroyKeepsInv<T>(s: State<T>)
    requires Inv(s) && s.cons.CMoved?
    ensures Inv(Apply(s, CDestroy))
  {
    hide BitAnd, Pow2;
    SlotOfCounter(s.t, s.logCap);
    var s' := Apply(s, CDestroy);
    var c := s.Cap();
    forall i: nat | Low(s') <= i < Low(s') + c
      ensures s'.slots[i % c] == Expected(s', i)
    {
      if i == s.t + c {
        ResidueShift(s.t, c);
      } else {
        OtherSlot(i, s.t, c);
      }
    }
    assert s'.died == Iota(Low(s'));
  }

  lemma {:induction false} RunKeepsInv<T>(s: State<T>, acts: seq<Action<T>>)
    requires Inv(s) && Legal(s, acts)
    ensures Inv(Exec(s, acts))
    decreases acts
  {
    if acts != [] {
      StepKeepsInv(s, acts[0]);
      RunKeepsInv(Apply(s, acts[0]), acts[1..]);
    }
  }
}

/**
 * The lock-free single-producer, single-consumer ring buffer as a step machine.
 *
 * Every load, test, construction, move, destruction and store of `emplace` and
 * `pop` is one action. A load of the other thread's index may return any value
 * that index has held since the last one seen, which is what acquire loads of
 * a single-writer atomic guarantee. Beside the 64-bit indices the state keeps
 * unbounded counters and logs; no branch of the code reads them.
 */
module SpscMachine {
  import opened Options
  import opened Words

  /** One element-sized cell of the storage; `serial` tells constructed objects apart. */
  datatype Slot<T> = Dead | Live(serial: nat, value: T) | MovedFrom(serial: nat)

  /** Where the producer is inside `emplace`, with the locals it holds. */
  datatype Producer<T> =
    | PIdle
    | PCalled(x: T)
    | PHaveHead(x: T, head: nat)
    | PHaveBoth(x: T, head: nat, tail: nat)
    | PClear(x: T, head: nat)
    | PBuilt(x: T, head: nat)

  /** Where the consumer is inside `pop`, with the locals it holds. */
  datatype Consumer<T> =
    | CIdle
    | CCalled
    | CHaveTail(tail: nat)
    | CHaveBoth(tail: nat, head: nat)
    | CReady(tail: nat)
    | CMoved(out: T, tail: nat)
    | CDestroyed(out: T, tail: nat)

  /** The response of one call, logged where the call takes effect. */
  datatype Event<T> = PushOk(x: T) | PushFull | PopOk(x: T) | PopEmpty

  datatype State<T> = State(
    // what the program stores
    logCap: nat,
    head: nat,
    tail: nat,
    slots: seq<Slot<T>>,
    prod: Producer<T>,
    cons: Consumer<T>,
    // true counters behind the wrapped indices, and the newest ones each side has seen
    h: nat,
    t: nat,
    seenTail: nat,
    seenHead: nat,
    // undefined behaviour: construction over an object, or a move or destruction without one
    fault: bool,
    // logs
    born: seq<T>,
    died: seq<nat>,
    pushed: seq<T>,
    popped: seq<T>,
    pushReturns: seq<bool>,
    popReturns: seq<Option<T>>,
    effects: seq<Event<T>>,
    sizes: seq<nat>)
  {
    function Cap(): (c: nat)
      ensures c > 0
    {
      Pow2(logCap)
    }

    /** The storage has one slot for every value of `idx & kMask`. */
    predicate Shaped() {
      |slots| == Cap()
    }

    function SlotIndex(idx: nat): (i: nat)
      ensures i < Cap()
    {
      BitAnd(idx, Cap() - 1)
    }
  }

  function Init<T>(logCap: nat): (s: State<T>)
    ensures s.Shaped()
  {
    State(logCap, 0, 0, seq(Pow2(logCap), _ => Dead), PIdle, CIdle, 0, 0, 0, 0, false,
          [], [], [], [], [], [], [], [])
  }

  /** Loads of the other side's index carry the counter of the value they return. */
  datatype Action<T> =
    | PCall(x: T) | PLoadHead | PLoadTail(counter: nat) | PTest | PConstruct | PPublish
    | CCall | CLoadTail | CLoadHead(counter: nat) | CTest | CMove | CDestroy | CPublish
    | PSize(counter: nat) | CSize(counter: nat)

  predicate ByConsumer<T>(a: Action<T>) {
    a.CCall? || a.CLoadTail? || a.CLoadHead? || a.CTest? || a.CMove? || a.CDestroy? || a.CPublish? || a.CSize?
  }

  /** Which action the program text allows next; says nothing about slots being usable. */
  predicate Enabled<T>(s: State<T>, a: Action<T>) {
    match a
    case PCall(_) => s.prod.PIdle?
    case PLoadHead => s.prod.PCalled?
    case PLoadTail(c) => s.prod.PHaveHead? && s.seenTail <= c <= s.t
    case PTest => s.prod.PHaveBoth?
    case PConstruct => s.prod.PClear?
    case PPublish => s.prod.PBuilt?
    case CCall => s.cons.CIdle?
    case CLoadTail => s.cons.CCalled?
    case CLoadHead(c) => s.cons.CHaveTail? && s.seenHead <= c <= s.h
    case CTest => s.cons.CHaveBoth?
    case CMove => s.cons.CReady?
    case CDestroy => s.cons.CMoved?
    case CPublish => s.cons.CDestroyed?
    case PSize(c) => s.prod.PIdle? && s.seenTail <= c <= s.t
    case CSize(c) => s.cons.CIdle? && s.seenHead <= c <= s.h
  }

  /** `(head - tail) == kCapacity` in 64-bit arithmetic. */
  predicate LooksFull<T>(s: State<T>, head: nat, tail: nat) {
    Wrap(head - tail) == s.Cap()
  }

  function Apply<T>(s: State<T>, a: Action<T>): (s': State<T>)
    requires s.Shaped() && Enabled(s, a)
    ensures s'.Shaped() && s'.logCap == s.logCap
  {
    match a
    case PCall(x) => s.(prod := PCalled(x))
    case PLoadHead => s.(prod := PHaveHead(s.prod.x, s.head))
    case PLoadTail(c) =>
      s.(prod := PHaveBoth(s.prod.x, s.prod.head, Wrap(c)), seenTail := c,
         effects := s.effects + if LooksFull(s, s.prod.head, Wrap(c)) then [PushFull] else [])
    case PTest =>
      if LooksFull(s, s.prod.head, s.prod.tail) then
        s.(prod := PIdle, pushReturns := s.pushReturns + [false])
      else
        s.(prod := PClear(s.prod.x, s.prod.head))
    case PConstruct =>
      var i := s.SlotIndex(s.prod.head);
      s.(prod := PBuilt(s.prod.x, s.prod.head),
         slots := s.slots[i := Live(|s.born|, s.prod.x)],
         born := s.born + [s.prod.x],
         fault := s.fault || !s.slots[i].Dead?)
    case PPublish =>
      s.(prod := PIdle, head := Wrap(s.prod.head + 1), h := s.h + 1,
         pushed := s.pushed + [s.prod.x],
         pushReturns := s.pushReturns + [true],
         effects := s.effects + [PushOk(s.prod.x)])
    case CCall => s.(cons := CCalled)
    case CLoadTail => s.(cons := CHaveTail(s.tail))
    case CLoadHead(c) =>
      s.(cons := CHaveBoth(s.cons.tail, Wrap(c)), seenHead := c,
         effects := s.effects + if Wrap(c) == s.cons.tail then [PopEmpty] else [])
    case CTest =>
      if s.cons.head == s.cons.tail then
        s.(cons := CIdle, popReturns := s.popReturns + [None])
      else
        s.(cons := CReady(s.cons.tail))
    case CMove =>
      var i := s.SlotIndex(s.cons.tail);
      if s.slots[i].Live? then
        s.(cons := CMoved(s.slots[i].value, s.cons.tail), slots := s.slots[i := MovedFrom(s.slots[i].serial)])
      else
        s.(fault := true)
    case CDestroy =>
      var i := s.SlotIndex(s.cons.tail);
      if s.slots[i].Dead? then
        s.(fault := true)
      else
        s.(cons := CDestroyed(s.cons.out, s.cons.tail), slots := s.slots[i := Dead],
           died := s.died + [s.slots[i].serial])
    case CPublish =>
      s.(cons := CIdle, tail := Wrap(s.cons.tail + 1), t := s.t + 1,
         popped := s.popped + [s.cons.out],
         popReturns := s.popReturns + [Some(s.cons.out)],
         effects := s.effects + [PopOk(s.cons.out)])
    case PSize(c) => s.(seenTail := c, sizes := s.sizes + [Wrap(s.head - Wrap(c))])
    case CSize(c) => s.(seenHead := c, sizes := s.sizes + [Wrap(Wrap(c) - s.tail)])
  }

  /** A list of actions the two threads can interleave from s. */
  predicate Legal<T>(s: State<T>, acts: seq<Action<T>>)
    requires s.Shaped()
    decreases acts
  {
    acts == [] || (Enabled(s, acts[0]) && Legal(Apply(s, acts[0]), acts[1..]))
  }

  function Exec<T>(s: State<T>, acts: seq<Action<T>>): (s': State<T>)
    requires s.Shaped() && Legal(s, acts)
    ensures s'.Shaped()
    decreases acts
  {
    if acts == [] then s else Exec(Apply(s, acts[0]), acts[1..])
  }
}

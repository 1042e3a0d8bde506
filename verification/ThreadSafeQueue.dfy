/**
 * The mutex-and-condition-variable queue as a step machine with any number of
 * threads, each of which may push or wait_and_pop. The mutex, the atomic
 * release-and-sleep of a wait, notify_one and spurious wake-ups are all steps.
 */
module ThreadSafeQueue {
  import opened Options
  import opened Tally

  /** Where one thread is; `Hold` in a comment means it owns the mutex there. */
  datatype Thread<T> =
    | Idle
    | PushLock(v: T)   // push called, wants the mutex
    | PushFill(v: T)   // Hold: about to enqueue
    | PushFilled       // Hold: enqueued, about to unlock
    | PushNotify       // unlocked, about to call notify_one
    | PopLock          // wait_and_pop called, wants the mutex
    | PopTest(woken: bool) // Hold: about to evaluate the predicate, for the first time or after a wake-up
    | Asleep           // blocked in the condition variable
    | Woken            // notified or spuriously woken, wants the mutex again
    | PopTake(woken: bool) // Hold: the predicate was true
    | PopDone(v: T)    // Hold: element moved out, about to unlock and return
  {
    predicate Holds() {
      PushFill? || PushFilled? || PopTest? || PopTake? || PopDone?
    }

    predicate WantsLock() {
      PushLock? || PopLock? || Woken?
    }
  }

  datatype State<T> = State(
    queue: seq<T>,
    owner: Option<nat>,
    threads: seq<Thread<T>>,
    pushed: seq<T>,
    popped: seq<T>,
    returned: seq<T>,
    fault: bool)

  function Init<T>(n: nat): State<T> {
    State([], None, seq(n, _ => Idle), [], [], [], false)
  }

  /** One atomic step of thread t; Notify names the sleeper it wakes, if there is one. */
  datatype Action<T> =
    | CallPush(t: nat, v: T) | CallPop(t: nat) | Lock(t: nat) | Fill(t: nat) | Unlock(t: nat)
    | Notify(t: nat, sleeper: Option<nat>) | Test(t: nat) | Take(t: nat) | Spurious(t: nat)

  predicate SomeAsleep<T>(s: State<T>) {
    exists i :: 0 <= i < |s.threads| && s.threads[i].Asleep?
  }

  predicate Enabled<T>(s: State<T>, a: Action<T>) {
    a.t < |s.threads| &&
    var p := s.threads[a.t];
    match a
    case CallPush(_, _) => p.Idle?
    case CallPop(_) => p.Idle?
    case Lock(_) => p.WantsLock() && s.owner == None
    case Fill(_) => p.PushFill?
    case Unlock(_) => p.PushFilled? || p.PopDone?
    case Notify(_, sleeper) =>
      && p.PushNotify?
      && (if sleeper.Some? then sleeper.value < |s.threads| && s.threads[sleeper.value].Asleep?
          else !SomeAsleep(s))
    case Test(_) => p.PopTest?
    case Take(_) => p.PopTake?
    case Spurious(_) => p.Asleep?
  }

  function Apply<T>(s: State<T>, a: Action<T>): State<T>
    requires Enabled(s, a)
  {
    var p := s.threads[a.t];
    match a
    case CallPush(t, v) => s.(threads := s.threads[t := PushLock(v)])
    case CallPop(t) => s.(threads := s.threads[t := PopLock])
    case Lock(t) =>
      s.(owner := Some(t), threads := s.threads[t := if p.PushLock? then PushFill(p.v) else PopTest(p.Woken?)])
    case Fill(t) =>
      s.(queue := s.queue + [p.v], pushed := s.pushed + [p.v], threads := s.threads[t := PushFilled])
    case Unlock(t) =>
      s.(owner := None, threads := s.threads[t := if p.PushFilled? then PushNotify else Idle],
         returned := s.returned + if p.PopDone? then [p.v] else [])
    case Notify(t, sleeper) =>
      var threads := s.threads[t := Idle];
      s.(threads := if sleeper.Some? then threads[sleeper.value := Woken] else threads)
    case Test(t) =>
      if s.queue == [] then s.(owner := None, threads := s.threads[t := Asleep])
      else s.(threads := s.threads[t := PopTake(p.woken)])
    case Take(t) =>
      if s.queue == [] then s.(fault := true)
      else s.(queue := s.queue[1..], popped := s.popped + [s.queue[0]], threads := s.threads[t := PopDone(s.queue[0])])
    case Spurious(t) => s.(threads := s.threads[t := Woken])
  }

  predicate Legal<T>(s: State<T>, acts: seq<Action<T>>)
    decreases acts
  {
    acts == [] || (Enabled(s, acts[0]) && Legal(Apply(s, acts[0]), acts[1..]))
  }

  function Exec<T>(s: State<T>, acts: seq<Action<T>>): State<T>
    requires Legal(s, acts)
    decreases acts
  {
    if acts == [] then s else Exec(Apply(s, acts[0]), acts[1..])
  }

  // -------------------------------------------------------------------- invariants

  /** The mutex is held by exactly the thread whose position says so. */
  ghost predicate MutexOk<T>(s: State<T>) {
    && (forall i :: 0 <= i < |s.threads| && s.threads[i].Holds() ==> s.owner == Some(i))
    && (s.owner.Some? ==> s.owner.value < |s.threads| && s.threads[s.owner.value].Holds())
  }

  /** Items leave in push order, and a tested predicate stays true until the element is taken. */
  ghost predicate FifoOk<T>(s: State<T>) {
    && s.popped + s.queue == s.pushed
    && (forall i :: 0 <= i < |s.threads| && s.threads[i].PopTake? ==> s.queue != [])
    && !s.fault
  }

  function AsleepW<T>(): Thread<T> -> int {
    (p: Thread<T>) => if p.Asleep? then 1 else 0
  }

  /**
   * One for each notify_one still owed (the pusher has enqueued but not notified) and
   * for each consumer that was woken and has not yet taken an element or slept again.
   */
  function WakeW<T>(): Thread<T> -> int {
    (p: Thread<T>) =>
      if p.PushFilled? || p.PushNotify? || p.Woken? || ((p.PopTest? || p.PopTake?) && p.woken) then 1 else 0
  }

  /** While some consumer sleeps, every queued item is covered by a pending or delivered wake-up. */
  ghost predicate WakeOk<T>(s: State<T>) {
    Sum(s.threads, AsleepW()) > 0 ==> |s.queue| <= Sum(s.threads, WakeW())
  }

  /** The element a thread holding the mutex has taken and is about to return. */
  function InFlight<T>(s: State<T>): seq<T> {
    if s.owner.Some? && s.owner.value < |s.threads| && s.threads[s.owner.value].PopDone? then
      [s.threads[s.owner.value].v]
    else
      []
  }

  /** Elements are returned in the order taken, each once; the last may be about to be by the thread that took it. */
  ghost predicate DeliveredOk<T>(s: State<T>) {
    s.popped == s.returned + InFlight(s)
  }

  ghost predicate Inv<T>(s: State<T>) {
    MutexOk(s) && FifoOk(s) && WakeOk(s) && DeliveredOk(s)
  }

  lemma {:induction false} IdleSums<T>(n: nat, w: Thread<T> -> int)
    requires w(Idle) == 0
    ensures Sum(seq(n, _ => Idle), w) == 0
    decreases n
  {
    if n > 0 {
      assert seq<Thread<T>>(n, _ => Idle)[..n - 1] == seq(n - 1, _ => Idle);
      IdleSums<T>(n - 1, w);
    }
  }

  lemma InitInv<T>(n: nat)
    ensures Inv(Init<T>(n))
  {
    IdleSums<T>(n, AsleepW());
  }

  lemma NoneAsleep<T>(s: State<T>)
    requires !SomeAsleep(s)
    ensures Sum(s.threads, AsleepW()) == 0
  {
    SumNonNegative(s.threads, AsleepW());
    if Sum(s.threads, AsleepW()) > 0 {
      var i := SumPositive(s.threads, AsleepW());
    }
  }

  lemma StepKeepsWake<T>(s: State<T>, a: Action<T>)
    requires Enabled(s, a) && WakeOk(s) && FifoOk(s)
    ensures WakeOk(Apply(s, a))
  {
    var s' := Apply(s, a);
    SumNonNegative(s'.threads, WakeW<T>());
    var x := if a.Notify? then Idle else s'.threads[a.t];
    SumUpdate(s.threads, a.t, x, AsleepW());
    SumUpdate(s.threads, a.t, x, WakeW());
    if !a.Notify? {
      assert s'.threads == s.threads[a.t := x];
    } else {
      if a.sleeper.Some? {
        SumUpdate(s.threads[a.t := Idle], a.sleeper.value, Woken, AsleepW());
        SumUpdate(s.threads[a.t := Idle], a.sleeper.value, Woken, WakeW());
      } else {
        NoneAsleep(s');
      }
    }
  }

  lemma StepKeepsDelivered<T>(s: State<T>, a: Action<T>)
    requires Enabled(s, a) && DeliveredOk(s) && MutexOk(s)
    ensures DeliveredOk(Apply(s, a))
  {
  }

  lemma StepKeepsMutex<T>(s: State<T>, a: Action<T>)
    requires Enabled(s, a) && MutexOk(s) && FifoOk(s)
    ensures MutexOk(Apply(s, a)) && FifoOk(Apply(s, a))
  {
  }

  lemma {:induction false} RunKeepsInv<T>(s: State<T>, acts: seq<Action<T>>)
    requires Inv(s) && Legal(s, acts)
    ensures Inv(Exec(s, acts)) && |Exec(s, acts).threads| == |s.threads|
    decreases acts
  {
    if acts != [] {
      StepKeepsMutex(s, acts[0]);
      StepKeepsWake(s, acts[0]);
      StepKeepsDelivered(s, acts[0]);
      RunKeepsInv(Apply(s, acts[0]), acts[1..]);
    }
  }

  // ---------------------------------------------------------------------- promises

  /** The values a run enqueues, in order, read off its actions: each Fill enqueues what its thread's call brought. */
  function Pushes<T>(calls: map<nat, T>, acts: seq<Action<T>>): seq<T>
    decreases acts
  {
    if acts == [] then []
    else
      match acts[0]
      case CallPush(t, v) => Pushes(calls[t := v], acts[1..])
      case Fill(t) => (if t in calls then [calls[t]] else []) + Pushes(calls, acts[1..])
      case _ => Pushes(calls, acts[1..])
  }

  /** A thread in push holds the value its call brought. */
  ghost predicate CallsOk<T>(s: State<T>, calls: map<nat, T>) {
    forall t: nat :: t < |s.threads| && (s.threads[t].PushLock? || s.threads[t].PushFill?) ==>
      t in calls && calls[t] == s.threads[t].v
  }

  function CallsAfter<T>(calls: map<nat, T>, a: Action<T>): map<nat, T> {
    if a.CallPush? then calls[a.t := a.v] else calls
  }

  lemma StepKeepsCalls<T>(s: State<T>, a: Action<T>, calls: map<nat, T>)
    requires Enabled(s, a) && CallsOk(s, calls)
    ensures CallsOk(Apply(s, a), CallsAfter(calls, a))
    ensures Apply(s, a).pushed == s.pushed + if a.Fill? && a.t in calls then [calls[a.t]] else []
  {
  }

  lemma {:induction false} RunPushes<T>(s: State<T>, acts: seq<Action<T>>, calls: map<nat, T>)
    requires Legal(s, acts) && CallsOk(s, calls)
    ensures Exec(s, acts).pushed == s.pushed + Pushes(calls, acts)
    decreases acts
  {
    if acts != [] {
      StepKeepsCalls(s, acts[0], calls);
      hide Apply, Enabled, CallsOk;
      RunPushes(Apply(s, acts[0]), acts[1..], CallsAfter(calls, acts[0]));
    }
  }

  /**
   * No lost wake-up, for any number of threads, under every interleaving and any
   * spurious wake-ups: while a consumer sleeps, queued items are at most the owed
   * notify_one calls plus the woken consumers that have not finished. Items are returned
   * in the order they were pushed, each once and none lost, and front() never meets an
   * empty queue.
   */
  lemma {:induction false} NoLostWakeup<T>(n: nat, acts: seq<Action<T>>)
    requires Legal(Init<T>(n), acts)
    ensures var s := Exec(Init<T>(n), acts);
            && (SomeAsleep(s) ==> |s.queue| <= Sum(s.threads, WakeW()))
            && s.returned + InFlight(s) + s.queue == Pushes(map[], acts)
            && !s.fault
  {
    InitInv<T>(n);
    RunKeepsInv(Init<T>(n), acts);
    RunPushes(Init<T>(n), acts, map[]);
    var s := Exec(Init<T>(n), acts);
    if i :| 0 <= i < |s.threads| && s.threads[i].Asleep? {
      SumAtLeast(s.threads, i, AsleepW());
    }
  }

  /** A step the program takes by itself: no new call, and no spurious wake-up. */
  ghost predicate Progress<T>(s: State<T>, a: Action<T>) {
    Enabled(s, a) && !a.CallPush? && !a.CallPop? && !a.Spurious?
  }

  lemma HolderCanMove<T>(s: State<T>, t: nat) returns (a: Action<T>)
    requires t < |s.threads| && s.threads[t].Holds()
    ensures Progress(s, a) && a.t == t
  {
    match s.threads[t] {
      case PushFill(_) => a := Fill(t);
      case PushFilled => a := Unlock(t);
      case PopTest(_) => a := Test(t);
      case PopTake(_) => a := Take(t);
      case PopDone(_) => a := Unlock(t);
    }
  }

  /** An item never waits in the queue beside a sleeper with every other thread at rest. */
  lemma {:induction false} SleeperNeverStranded<T>(n: nat, acts: seq<Action<T>>)
    requires Legal(Init<T>(n), acts)
    requires var s := Exec(Init<T>(n), acts); SomeAsleep(s) && s.queue != []
    ensures exists a :: Progress(Exec(Init<T>(n), acts), a)
  {
    InitInv<T>(n);
    RunKeepsInv(Init<T>(n), acts);
    NoLostWakeup(n, acts);
    var s := Exec(Init<T>(n), acts);
    var i := SumPositive(s.threads, WakeW());
    if s.threads[i].PushNotify? {
      var j :| 0 <= j < |s.threads| && s.threads[j].Asleep?;
      assert Progress(s, Notify(i, Some(j)));
    } else if s.threads[i].Woken? && s.owner == None {
      assert Progress(s, Lock(i));
    } else {
      var a := HolderCanMove(s, if s.threads[i].Woken? then s.owner.value else i);
    }
  }

  /** With no step left to take, every thread is at rest or asleep, and nobody sleeps beside an item. */
  lemma {:induction false} StuckIsQuiet<T>(n: nat, acts: seq<Action<T>>)
    requires Legal(Init<T>(n), acts) && forall a :: !Progress(Exec(Init<T>(n), acts), a)
    ensures var s := Exec(Init<T>(n), acts);
            && (forall i :: 0 <= i < |s.threads| ==> s.threads[i].Idle? || s.threads[i].Asleep?)
            && s.owner == None
            && (SomeAsleep(s) ==> s.queue == [])
  {
    InitInv<T>(n);
    RunKeepsInv(Init<T>(n), acts);
    var s := Exec(Init<T>(n), acts);
    if SomeAsleep(s) && s.queue != [] {
      SleeperNeverStranded(n, acts);
    }
    if s.owner.Some? {
      var a := HolderCanMove(s, s.owner.value);
    }
    forall i | 0 <= i < |s.threads| ensures s.threads[i].Idle? || s.threads[i].Asleep? {
      ThreadCanMove(s, i);
    }
  }

  /** With the mutex free, a thread in the middle of a call can go on. */
  lemma ThreadCanMove<T>(s: State<T>, i: nat)
    requires MutexOk(s) && s.owner == None && i < |s.threads|
    ensures s.threads[i].Idle? || s.threads[i].Asleep? || exists a :: Progress(s, a)
  {
    if s.threads[i].WantsLock() {
      assert Progress(s, Lock(i));
    } else if s.threads[i].PushNotify? {
      if j :| 0 <= j < |s.threads| && s.threads[j].Asleep? {
        assert Progress(s, Notify(i, Some(j)));
      } else {
        assert Progress(s, Notify(i, None));
      }
    }
  }

  /** How many more steps a thread can take on its own before it rests or sleeps, at most. */
  function StepsW<T>(): Thread<T> -> int {
    (p: Thread<T>) =>
      match p
      case PushLock(_) => 8
      case PushFill(_) => 7
      case PushFilled => 6
      case PushNotify => 5
      case PopLock => 4
      case Woken => 4
      case PopTest(_) => 3
      case PopTake(_) => 2
      case PopDone(_) => 1
      case _ => 0
  }

  lemma ProgressDescends<T>(s: State<T>, a: Action<T>)
    requires Progress(s, a) && FifoOk(s)
    ensures Sum(Apply(s, a).threads, StepsW()) < Sum(s.threads, StepsW())
  {
    hide Sum;
    var x := if a.Notify? then Idle else Apply(s, a).threads[a.t];
    SumUpdate(s.threads, a.t, x, StepsW());
    if !a.Notify? {
      assert Apply(s, a).threads == s.threads[a.t := x];
    } else if a.sleeper.Some? {
      SumUpdate(s.threads[a.t := Idle], a.sleeper.value, Woken, StepsW());
    }
  }

  /** A run with no new calls and no spurious wake-ups. */
  ghost predicate OnItsOwn<T>(acts: seq<Action<T>>) {
    forall i :: 0 <= i < |acts| ==> !acts[i].CallPush? && !acts[i].CallPop? && !acts[i].Spurious?
  }

  lemma {:induction false} OwnRunDescends<T>(s: State<T>, acts: seq<Action<T>>)
    requires Inv(s) && Legal(s, acts) && OnItsOwn(acts)
    ensures |acts| + Sum(Exec(s, acts).threads, StepsW()) <= Sum(s.threads, StepsW())
    decreases acts
  {
    if acts != [] {
      StepKeepsMutex(s, acts[0]);
      StepKeepsWake(s, acts[0]);
      StepKeepsDelivered(s, acts[0]);
      ProgressDescends(s, acts[0]);
      hide Sum, Apply, Enabled;
      OwnRunDescends(Apply(s, acts[0]), acts[1..]);
    }
  }

  /** Left on its own, from any reachable state, the program stops within 8 steps a thread. */
  lemma {:induction false} OwnRunsEnd<T>(n: nat, before: seq<Action<T>>, acts: seq<Action<T>>)
    requires Legal(Init<T>(n), before) && Legal(Exec(Init<T>(n), before), acts) && OnItsOwn(acts)
    ensures |acts| <= 8 * n
  {
    InitInv<T>(n);
    hide Inv, Sum, Apply, Enabled, OnItsOwn;
    RunKeepsInv(Init<T>(n), before);
    var s := Exec(Init<T>(n), before);
    OwnRunDescends(s, acts);
    SumAtMost(s.threads, StepsW<T>(), 8);
    SumNonNegative(Exec(s, acts).threads, StepsW<T>());
  }

  // ------------------------------------------------------------ the object in place

  lemma {:induction false} ExecSnoc<T>(s: State<T>, acts: seq<Action<T>>, a: Action<T>)
    requires Legal(s, acts) && Enabled(Exec(s, acts), a)
    ensures Legal(s, acts + [a]) && Exec(s, acts + [a]) == Apply(Exec(s, acts), a)
    decreases acts
  {
    if acts == [] {
      assert acts + [a] == [a];
      assert Legal(Apply(s, a), []);
    } else {
      hide Apply, Enabled;
      assert (acts + [a])[1..] == acts[1..] + [a];
      ExecSnoc(Apply(s, acts[0]), acts[1..], a);
    }
  }

  /** The steps of one uninterrupted push, and of a wait_and_pop that has the mutex. */
  function PushActs<T>(t: nat, v: T, sleeper: Option<nat>): seq<Action<T>> {
    [CallPush(t, v), Lock(t), Fill(t), Unlock(t), Notify(t, sleeper)]
  }

  function TakeActs<T>(t: nat, ready: bool): seq<Action<T>> {
    [Lock(t), Test(t)] + if ready then [Take(t), Unlock(t)] else []
  }

  /** The trace is a run of the machine, and leads to the model. */
  ghost predicate Reached<T>(model: State<T>, trace: seq<Action<T>>) {
    && Legal(Init<T>(|model.threads|), trace) && model == Exec(Init<T>(|model.threads|), trace)
    && MutexOk(model) && FifoOk(model) && WakeOk(model)
  }

  /** The queue object and its threads, updated in place; `trace` is the run so far. */
  class Monitor<T> {
    var queue: seq<T>
    var owner: Option<nat>
    var threads: seq<Thread<T>>
    ghost var trace: seq<Action<T>>
    ghost var model: State<T>

    ghost predicate Valid()
      reads this
    {
      && model.queue == queue && model.owner == owner && model.threads == threads
      && Reached(model, trace)
    }

    constructor (n: nat)
      ensures Valid() && trace == [] && model == Init<T>(n)
    {
      queue, owner, threads := [], None, seq(n, _ => Idle);
      model, trace := Init<T>(n), [];
      new;
      IdleSums<T>(n, AsleepW());
    }

    ghost method Advance(a: Action<T>)
      requires Reached(model, trace) && Enabled(model, a)
      modifies this`model, this`trace
      ensures Reached(model, trace) && model == Apply(old(model), a) && trace == old(trace) + [a]
    {
      StepKeepsMutex(model, a);
      StepKeepsWake(model, a);
      ExecSnoc(Init<T>(|model.threads|), trace, a);
      hide MutexOk, WakeOk, FifoOk, Legal, Exec;
      model, trace := Apply(model, a), trace + [a];
    }

    /** push, uninterrupted: the value goes to the end of the queue and one sleeper, if any, is woken. */
    method Push(t: nat, v: T, sleeper: Option<nat>)
      requires Valid() && t < |threads| && threads[t].Idle? && owner == None
      requires if sleeper.Some? then sleeper.value < |threads| && threads[sleeper.value].Asleep? else !SomeAsleep(model)
      modifies this
      ensures Valid() && trace == old(trace) + PushActs(t, v, sleeper)
      ensures queue == old(queue) + [v] && owner == None
      ensures threads == if sleeper.Some? then old(threads)[sleeper.value := Woken] else old(threads)
    {
      hide Reached;
      Advance(CallPush(t, v));
      Advance(Lock(t));
      Advance(Fill(t));
      queue := queue + [v];
      Advance(Unlock(t));
      Advance(Notify(t, sleeper));
      if sleeper.Some? {
        threads := threads[sleeper.value := Woken];
      }
    }

    /**
     * wait_and_pop, uninterrupted: the front element, or, when there is none, no answer
     * and the thread asleep with the mutex released.
     */
    method WaitAndPop(t: nat) returns (r: Option<T>)
      requires Valid() && t < |threads| && threads[t].Idle? && owner == None
      modifies this
      ensures Valid() && trace == old(trace) + [CallPop(t)] + TakeActs(t, r.Some?)
      ensures old(queue) == (if r.Some? then [r.value] else []) + queue && owner == None
      ensures r.None? <==> old(queue) == []
      ensures threads == if r.Some? then old(threads) else old(threads)[t := Asleep]
    {
      hide Reached;
      Advance(CallPop(t));
      threads := threads[t := PopLock];
      r := TakeFront(t);
    }

    /** The same after a wake-up: the predicate is tested again, and the thread may go back to sleep. */
    method Resume(t: nat) returns (r: Option<T>)
      requires Valid() && t < |threads| && threads[t].Woken? && owner == None
      modifies this
      ensures Valid() && trace == old(trace) + TakeActs(t, r.Some?)
      ensures old(queue) == (if r.Some? then [r.value] else []) + queue && owner == None
      ensures r.None? <==> old(queue) == []
      ensures threads == old(threads)[t := if r.Some? then Idle else Asleep]
    {
      r := TakeFront(t);
    }

    method TakeFront(t: nat) returns (r: Option<T>)
      requires Valid() && t < |threads| && (threads[t].PopLock? || threads[t].Woken?) && owner == None
      modifies this
      ensures Valid() && trace == old(trace) + TakeActs(t, r.Some?)
      ensures old(queue) == (if r.Some? then [r.value] else []) + queue && owner == None
      ensures r.None? <==> old(queue) == []
      ensures threads == old(threads)[t := if r.Some? then Idle else Asleep]
    {
      hide Reached;
      var ready := Retest(t);
      if ready {
        var v := TakeOut(t);
        r := Some(v);
      } else {
        r := None;
      }
    }

    /** Lock and evaluate the predicate; when it is false, release the mutex and sleep. */
    method Retest(t: nat) returns (ready: bool)
      requires Valid() && t < |threads| && (threads[t].PopLock? || threads[t].Woken?) && owner == None
      modifies this`owner, this`threads, this`model, this`trace
      ensures Valid() && trace == old(trace) + [Lock(t), Test(t)] && ready == (queue != [])
      ensures owner == if ready then Some(t) else None
      ensures threads == old(threads)[t := if ready then PopTake(old(threads[t].Woken?)) else Asleep]
    {
      hide Reached;
      var woken := threads[t].Woken?;
      Advance(Lock(t));
      Advance(Test(t));
      ready := queue != [];
      owner := if ready then Some(t) else None;
      threads := threads[t := if ready then PopTake(woken) else Asleep];
    }

    /** Move the front element out, pop it and unlock. */
    method TakeOut(t: nat) returns (v: T)
      requires Valid() && t < |threads| && threads[t].PopTake? && owner == Some(t) && queue != []
      modifies this
      ensures Valid() && trace == old(trace) + [Take(t), Unlock(t)] && owner == None
      ensures old(queue) == [v] + queue && threads == old(threads)[t := Idle]
    {
      hide Reached;
      Advance(Take(t));
      v := queue[0];
      queue := queue[1..];
      Advance(Unlock(t));
      owner := None;
      threads := threads[t := Idle];
    }

    /** Any one step of any thread, so that calls may interleave. */
    method Step(a: Action<T>)
      requires Valid() && Enabled(model, a)
      modifies this
      ensures Valid() && model == Apply(old(model), a) && trace == old(trace) + [a]
    {
      assert a.Take? ==> queue != [];
      hide Reached;
      Advance(a);
      var t, p := a.t, threads[a.t];
      match a {
        case CallPush(_, v) =>
          threads := threads[t := PushLock(v)];
        case CallPop(_) =>
          threads := threads[t := PopLock];
        case Lock(_) =>
          owner := Some(t);
          threads := threads[t := if p.PushLock? then PushFill(p.v) else PopTest(p.Woken?)];
        case Fill(_) =>
          queue := queue + [p.v];
          threads := threads[t := PushFilled];
        case Unlock(_) =>
          owner := None;
          threads := threads[t := if p.PushFilled? then PushNotify else Idle];
        case Notify(_, sleeper) =>
          threads := threads[t := Idle];
          if sleeper.Some? {
            threads := threads[sleeper.value := Woken];
          }
        case Test(_) =>
          if queue == [] {
            owner := None;
            threads := threads[t := Asleep];
          } else {
            threads := threads[t := PopTake(p.woken)];
          }
        case Take(_) =>
          var front := queue[0];
          queue := queue[1..];
          threads := threads[t := PopDone(front)];
        case Spurious(_) =>
          threads := threads[t := Woken];
      }
    }
  }
}

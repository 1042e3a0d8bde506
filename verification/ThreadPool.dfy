/**
 * The thread pool as a step machine: any number of workers and enqueuing threads, a
 * counting semaphore, a mutex-protected task queue, and the destructor's shutdown
 * sequence. Each statement of the worker loop is one step.
 *
 * `upToDate` chooses the memory model for m_stopping. When it is false a worker may read
 * an old `false` until it has acquired a token after the destructor's first release,
 * which is when the semaphore makes the earlier store visible. A worker's reads of its
 * own stop flag may be old at any time.
 */
module ThreadPool {
  import opened Options
  import opened Tally

  datatype Pc<T> =
    | AtStopTest        // loop condition, first half: stop_requested()
    | AtStoppingTest    // loop condition, second half: m_stopping
    | AtAcquire         // about to acquire, blocked while there is no token
    | AtCheck           // about to test stop_requested() && m_tasks.empty()
    | AtLock            // about to take the mutex and look at the queue
    | Running(task: T)
    | Exited

  /**
   * `stop` is the stop flag of the worker's jthread. `aware` says that no further read
   * of m_stopping can return false; `ran` counts tasks dispatched since then.
   */
  datatype Worker<T> = Worker(pc: Pc<T>, stop: bool, aware: bool, ran: nat)

  /** The destructor's loop over the workers. */
  datatype Destructor = NotStarted | Releasing(k: nat) | Requesting(k: nat) | Done

  datatype State<T> = State(
    upToDate: bool,
    tasks: seq<T>,
    tokens: nat,
    pending: nat,          // enqueuers that have pushed and not yet released
    stopping: bool,
    dtor: Destructor,
    workers: seq<Worker<T>>,
    enqueued: seq<T>,
    dispatched: seq<T>)
  {
    function N(): nat {
      |workers|
    }

    /** Releases the destructor still owes. */
    function Owed(): int {
      match dtor
      case NotStarted => N()
      case Releasing(k) => N() - k
      case Requesting(k) => N() - k - 1
      case Done => 0
    }
  }

  function Init<T>(n: nat, upToDate: bool): State<T> {
    State(upToDate, [], 0, 0, false, NotStarted, seq(n, _ => Worker(AtStopTest, false, false, 0)), [], [])
  }

  datatype Action<T> =
    | EnqPush(task: T) | EnqRelease
    | WTestStop(w: nat, saw: bool) | WTestStopping(w: nat, saw: bool) | WAcquire(w: nat)
    | WCheck(w: nat, saw: bool) | WDequeue(w: nat) | WFinish(w: nat)
    | DBegin | DRelease | DRequest

  predicate WorkerStep<T>(a: Action<T>) {
    !a.EnqPush? && !a.EnqRelease? && !a.DBegin? && !a.DRelease? && !a.DRequest?
  }

  predicate Enabled<T>(s: State<T>, a: Action<T>) {
    if WorkerStep(a) then
      a.w < s.N() &&
      var p := s.workers[a.w];
      match a
      case WTestStop(_, saw) => p.pc.AtStopTest? && (saw ==> p.stop)
      case WTestStopping(_, saw) => p.pc.AtStoppingTest? && (saw == s.stopping || (!saw && !p.aware))
      case WAcquire(_) => p.pc.AtAcquire? && s.tokens > 0
      case WCheck(_, saw) => p.pc.AtCheck? && (saw ==> p.stop)
      case WDequeue(_) => p.pc.AtLock?
      case WFinish(_) => p.pc.Running?
    else
      match a
      case EnqPush(_) => true
      case EnqRelease => s.pending > 0
      case DBegin => s.dtor.NotStarted?
      case DRelease => s.dtor.Releasing? && s.dtor.k < s.N()
      case DRequest => s.dtor.Requesting? && s.dtor.k < s.N()
  }

  function NextWorker<T>(s: State<T>, a: Action<T>): Worker<T>
    requires Enabled(s, a) && WorkerStep(a)
  {
    var p := s.workers[a.w];
    match a
    case WTestStop(_, saw) => p.(pc := if saw then Exited else AtStoppingTest)
    case WTestStopping(_, saw) => p.(pc := if saw then Exited else AtAcquire)
    case WAcquire(_) => p.(pc := AtCheck, aware := p.aware || (s.stopping && s.Owed() < s.N()))
    case WCheck(_, saw) => p.(pc := if saw && s.tasks == [] then Exited else AtLock)
    case WDequeue(_) =>
      if s.tasks == [] then p.(pc := AtStopTest)
      else p.(pc := Running(s.tasks[0]), ran := if p.aware then p.ran + 1 else p.ran)
    case WFinish(_) => p.(pc := AtStopTest)
  }

  function Apply<T>(s: State<T>, a: Action<T>): State<T>
    requires Enabled(s, a)
  {
    if WorkerStep(a) then
      var s' := s.(workers := s.workers[a.w := NextWorker(s, a)]);
      match a
      case WAcquire(_) => s'.(tokens := s.tokens - 1)
      case WDequeue(_) =>
        if s.tasks == [] then s'
        else s'.(tasks := s.tasks[1..], dispatched := s.dispatched + [s.tasks[0]])
      case _ => s'
    else
      match a
      case EnqPush(task) => s.(tasks := s.tasks + [task], enqueued := s.enqueued + [task], pending := s.pending + 1)
      case EnqRelease => s.(pending := s.pending - 1, tokens := s.tokens + 1)
      case DBegin =>
        s.(stopping := true, dtor := if s.N() == 0 then Done else Releasing(0),
           workers := seq(s.N(), i requires 0 <= i < s.N() => s.workers[i].(aware := s.workers[i].aware || s.upToDate)))
      case DRelease => s.(tokens := s.tokens + 1, dtor := Requesting(s.dtor.k))
      case DRequest =>
        var k := s.dtor.k;
        s.(workers := s.workers[k := s.workers[k].(stop := true)],
           dtor := if k + 1 == s.N() then Done else Releasing(k + 1))
  }

  predicate Legal<T>(s: State<T>, acts: seq<Action<T>>)
    decreases acts
  {
    acts == [] || (Enabled(s, acts[0]) && Legal(Apply(s, acts[0]), acts[1..]))
  }

  function Exec<T>(s: State<T>, acts: seq<Action<T>>): State<T>
    requires Legal(s, acts)
    decreases acts
  {
    if acts == [] then s else Exec(Apply(s, acts[0]), acts[1..])
  }

  // -------------------------------------------------------------------- invariants

  /** Workers that hold a token's worth of work: past acquire, not yet past the queue. */
  function PastW<T>(): Worker<T> -> int {
    (p: Worker<T>) => if p.pc.AtCheck? || p.pc.AtLock? then 1 else 0
  }

  /** Workers that are waiting for a token, or may come to wait for one. */
  function CreditW<T>(): Worker<T> -> int {
    (p: Worker<T>) => if p.pc.AtAcquire? || (!p.aware && !p.pc.Exited?) then 1 else 0
  }

  function WaitingW<T>(): Worker<T> -> int {
    (p: Worker<T>) => if p.pc.AtAcquire? then 1 else 0
  }

  /** Tasks leave in the order they came. */
  ghost predicate OrderOk<T>(s: State<T>) {
    s.dispatched + s.tasks == s.enqueued
  }

  ghost predicate CountOk<T>(s: State<T>) {
    && |s.tasks| <= s.tokens + Sum(s.workers, PastW()) + s.pending
    && (!s.stopping ==> |s.tasks| == s.tokens + Sum(s.workers, PastW()) + s.pending)
  }

  ghost predicate WorkerOk<T>(s: State<T>, p: Worker<T>) {
    && (!s.stopping ==> !p.aware && !p.stop && !p.pc.Exited?)
    && (s.upToDate && s.stopping ==> p.aware)
    && (!p.aware ==> p.ran == 0)
    && (p.aware ==> p.ran + (if p.pc.AtAcquire? || p.pc.AtCheck? || p.pc.AtLock? then 1 else 0) <= 1)
    && (!s.upToDate && p.aware ==> !p.pc.AtAcquire?)
  }

  ghost predicate WorkersOk<T>(s: State<T>) {
    forall i :: 0 <= i < s.N() ==> WorkerOk(s, s.workers[i])
  }

  ghost predicate ShutdownOk<T>(s: State<T>) {
    && (s.stopping <==> !s.dtor.NotStarted?)
    && (s.dtor.Releasing? ==> s.dtor.k < s.N())
    && (s.dtor.Requesting? ==> s.dtor.k < s.N())
    && (s.stopping ==> s.tokens + s.Owed() >= Sum(s.workers, CreditW()))
  }

  ghost predicate Inv<T>(s: State<T>) {
    OrderOk(s) && CountOk(s) && WorkersOk(s) && ShutdownOk(s)
  }

  lemma {:induction false} ZeroSum<T>(n: nat, p: Worker<T>, w: Worker<T> -> int)
    requires w(p) == 0
    ensures Sum(seq(n, _ => p), w) == 0
    decreases n
  {
    if n > 0 {
      assert seq(n, _ => p)[..n - 1] == seq(n - 1, _ => p);
      ZeroSum(n - 1, p, w);
    }
  }

  lemma InitInv<T>(n: nat, upToDate: bool)
    ensures Inv(Init<T>(n, upToDate))
  {
    ZeroSum(n, Worker<T>.Worker(AtStopTest, false, false, 0), PastW());
  }

  lemma PastNonNegative<T>(s: State<T>)
    ensures Sum(s.workers, PastW()) >= 0
  {
    SumNonNegative(s.workers, PastW<T>());
  }

  lemma {:induction false} SumSame<T>(a: seq<Worker<T>>, b: seq<Worker<T>>, w: Worker<T> -> int)
    requires |a| == |b| && forall i :: 0 <= i < |a| ==> w(a[i]) == w(b[i])
    ensures Sum(a, w) == Sum(b, w)
    decreases |a|
  {
    if a != [] {
      SumSame(a[..|a| - 1], b[..|b| - 1], w);
    }
  }

  lemma StepKeepsOrder<T>(s: State<T>, a: Action<T>)
    requires OrderOk(s) && Enabled(s, a)
    ensures OrderOk(Apply(s, a))
  {
  }

  lemma StepKeepsCount<T>(s: State<T>, a: Action<T>)
    requires CountOk(s) && ShutdownOk(s) && Enabled(s, a)
    ensures CountOk(Apply(s, a))
  {
    if WorkerStep(a) {
      WorkerKeepsCount(s, a);
    } else {
      var s' := Apply(s, a);
      if a.DBegin? {
        SumSame(s.workers, s'.workers, PastW());
      } else if a.DRequest? {
        SumUpdate(s.workers, s.dtor.k, s'.workers[s.dtor.k], PastW());
      }
    }
  }

  lemma WorkerKeepsCount<T>(s: State<T>, a: Action<T>)
    requires CountOk(s) && Enabled(s, a) && WorkerStep(a)
    ensures CountOk(Apply(s, a))
  {
    PastNonNegative(Apply(s, a));
    SumUpdate(s.workers, a.w, NextWorker(s, a), PastW());
    SumAtLeast(s.workers, a.w, PastW<T>());
    hide Sum;
  }

  lemma StepKeepsWorkers<T>(s: State<T>, a: Action<T>)
    requires WorkersOk(s) && ShutdownOk(s) && Enabled(s, a)
    ensures WorkersOk(Apply(s, a)) && Apply(s, a).N() == s.N()
  {
    hide Sum;
    var s' := Apply(s, a);
    forall i | 0 <= i < s'.N() ensures WorkerOk(s', s'.workers[i]) {
      assert WorkerOk(s, s.workers[i]);
    }
  }

  lemma StepKeepsShutdown<T>(s: State<T>, a: Action<T>)
    requires WorkersOk(s) && ShutdownOk(s) && Enabled(s, a)
    ensures ShutdownOk(Apply(s, a))
  {
    if WorkerStep(a) {
      WorkerKeepsShutdown(s, a);
    } else {
      var s' := Apply(s, a);
      SumAtMost(s'.workers, CreditW<T>(), 1);
      if a.DRequest? {
        SumUpdate(s.workers, s.dtor.k, s'.workers[s.dtor.k], CreditW());
      }
    }
  }

  lemma WorkerKeepsShutdown<T>(s: State<T>, a: Action<T>)
    requires WorkersOk(s) && ShutdownOk(s) && Enabled(s, a) && WorkerStep(a)
    ensures ShutdownOk(Apply(s, a))
  {
    var s' := Apply(s, a);
    SumAtMost(s'.workers, CreditW<T>(), 1);
    assert WorkerOk(s, s.workers[a.w]);
    SumUpdate(s.workers, a.w, NextWorker(s, a), CreditW());
    hide Sum, WorkersOk;
  }

  lemma StepKeepsInv<T>(s: State<T>, a: Action<T>)
    requires Inv(s) && Enabled(s, a)
    ensures Inv(Apply(s, a)) && Apply(s, a).N() == s.N() && Apply(s, a).upToDate == s.upToDate
  {
    StepKeepsOrder(s, a);
    StepKeepsCount(s, a);
    StepKeepsWorkers(s, a);
    StepKeepsShutdown(s, a);
    hide OrderOk, CountOk, WorkersOk, ShutdownOk;
  }

  lemma {:induction false} RunKeepsInv<T>(s: State<T>, acts: seq<Action<T>>)
    requires Inv(s) && Legal(s, acts)
    ensures Inv(Exec(s, acts)) && Exec(s, acts).N() == s.N() && Exec(s, acts).upToDate == s.upToDate
    decreases acts
  {
    if acts != [] {
      StepKeepsInv(s, acts[0]);
      RunKeepsInv(Apply(s, acts[0]), acts[1..]);
    }
  }

  // ---------------------------------------------------------------------- promises

  /** A step the pool takes by itself: a worker's, or a release that is owed. */
  ghost predicate Progress<T>(s: State<T>, a: Action<T>) {
    Enabled(s, a) && (WorkerStep(a) || a.EnqRelease?)
  }

  /** The step a worker is about to take, if it is not blocked or finished. */
  lemma WorkerCanMove<T>(s: State<T>, w: nat) returns (a: Action<T>)
    requires w < s.N() && !s.workers[w].pc.Exited? && (s.workers[w].pc.AtAcquire? ==> s.tokens > 0)
    ensures WorkerStep(a) && a.w == w && Enabled(s, a)
  {
    match s.workers[w].pc {
      case AtStopTest => a := WTestStop(w, false);
      case AtStoppingTest => a := WTestStopping(w, s.stopping);
      case AtAcquire => a := WAcquire(w);
      case AtCheck => a := WCheck(w, false);
      case AtLock => a := WDequeue(w);
      case Running(_) => a := WFinish(w);
    }
  }

  lemma {:induction false} Reached<T>(n: nat, upToDate: bool, acts: seq<Action<T>>)
    requires Legal(Init<T>(n, upToDate), acts)
    ensures var s := Exec(Init<T>(n, upToDate), acts); Inv(s) && s.N() == n && s.upToDate == upToDate
  {
    InitInv<T>(n, upToDate);
    RunKeepsInv(Init<T>(n, upToDate), acts);
  }

  /** The queue-empty branch after acquire, which the accounting rules out. */
  ghost predicate EmptyBranchReachable<T>(s: State<T>) {
    exists i :: 0 <= i < s.N() && s.workers[i].pc.AtLock? && s.tasks == []
  }

  // What a run did, read off its actions and the workers' positions alone.

  /** The tasks enqueued, in order. */
  function Enqueues<T>(acts: seq<Action<T>>): seq<T> {
    if acts == [] then []
    else Enqueued(acts[0]) + Enqueues(acts[1..])
  }

  /** The tasks that workers started to run, in order. */
  function Ran<T>(s: State<T>, acts: seq<Action<T>>): seq<T>
    requires Legal(s, acts)
    decreases acts
  {
    if acts == [] then [] else Started(s, acts[0]) + Ran(Apply(s, acts[0]), acts[1..])
  }

  function Started<T>(s: State<T>, a: Action<T>): seq<T>
    requires Enabled(s, a)
  {
    if WorkerStep(a) && !s.workers[a.w].pc.Running? && Apply(s, a).workers[a.w].pc.Running? then
      [Apply(s, a).workers[a.w].pc.task]
    else
      []
  }

  /** How often enqueue released the semaphore, the destructor did, and a worker acquired it. */
  function Releases<T>(acts: seq<Action<T>>): nat {
    if acts == [] then 0 else (if acts[0].EnqRelease? then 1 else 0) + Releases(acts[1..])
  }

  function Signals<T>(acts: seq<Action<T>>): nat {
    if acts == [] then 0 else (if acts[0].DRelease? then 1 else 0) + Signals(acts[1..])
  }

  function Acquires<T>(acts: seq<Action<T>>): nat {
    if acts == [] then 0 else (if acts[0].WAcquire? then 1 else 0) + Acquires(acts[1..])
  }

  function Enqueued<T>(a: Action<T>): seq<T> {
    if a.EnqPush? then [a.task] else []
  }

  lemma StepOrders<T>(s: State<T>, a: Action<T>)
    requires Enabled(s, a)
    ensures Started(s, a) + Apply(s, a).tasks == s.tasks + Enqueued(a)
    ensures Apply(s, a).dispatched == s.dispatched + Started(s, a)
  {
  }

  lemma Interpose<T>(a: seq<T>, b: seq<T>, c: seq<T>, d: seq<T>, e: seq<T>, f: seq<T>, g: seq<T>)
    requires b + c == d + e && a + d == f + g
    ensures (a + b) + c == f + (g + e)
  {
    calc {
      (a + b) + c;
      a + (b + c);
      a + (d + e);
      (a + d) + e;
      (f + g) + e;
      f + (g + e);
    }
  }

  /** Tasks run, then tasks queued, are the tasks queued before and then those enqueued. */
  lemma {:induction false} RunOrders<T>(s: State<T>, acts: seq<Action<T>>)
    requires Legal(s, acts)
    ensures Ran(s, acts) + Exec(s, acts).tasks == s.tasks + Enqueues(acts)
    ensures Exec(s, acts).dispatched == s.dispatched + Ran(s, acts)
    decreases acts
  {
    if acts != [] {
      hide Enabled, Apply, Started, Enqueued;
      var s1, a := Apply(s, acts[0]), acts[0];
      StepOrders(s, a);
      RunOrders(s1, acts[1..]);
      Interpose(Started(s, a), Ran(s1, acts[1..]), Exec(s, acts).tasks,
                s1.tasks, Enqueues(acts[1..]), s.tasks, Enqueued(a));
    }
  }

  lemma StepCounts<T>(s: State<T>, a: Action<T>)
    requires Enabled(s, a)
    ensures Apply(s, a).pending == s.pending + |Enqueued(a)| - if a.EnqRelease? then 1 else 0
    ensures Apply(s, a).tokens ==
            s.tokens + (if a.EnqRelease? || a.DRelease? then 1 else 0) - if a.WAcquire? then 1 else 0
  {
  }

  lemma {:induction false} RunCounts<T>(s: State<T>, acts: seq<Action<T>>)
    requires Legal(s, acts)
    ensures Exec(s, acts).pending + Releases(acts) == s.pending + |Enqueues(acts)|
    ensures Exec(s, acts).tokens + Acquires(acts) == s.tokens + Releases(acts) + Signals(acts)
    decreases acts
  {
    if acts != [] {
      hide Enabled, Apply, Enqueued;
      StepCounts(s, acts[0]);
      RunCounts(Apply(s, acts[0]), acts[1..]);
    }
  }

  /**
   * Tasks are run in the order they were enqueued, each once, and none is lost: those run,
   * then those queued, are those enqueued. Tokens are releases less acquires. Until shutdown
   * starts the queue's length is accounted for token by token, and the empty-queue branch
   * after acquire is unreachable.
   */
  lemma {:induction false} TokenAccounting<T>(n: nat, upToDate: bool, acts: seq<Action<T>>)
    requires Legal(Init<T>(n, upToDate), acts)
    ensures var s := Exec(Init<T>(n, upToDate), acts);
            && Ran(Init<T>(n, upToDate), acts) + s.tasks == Enqueues(acts)
            && s.pending + Releases(acts) == |Enqueues(acts)|
            && s.tokens + Acquires(acts) == Releases(acts) + Signals(acts)
            && s.dispatched == Ran(Init<T>(n, upToDate), acts) && s.enqueued == Enqueues(acts)
            && (!s.stopping ==>
                  && |s.tasks| == s.tokens + Sum(s.workers, PastW()) + s.pending
                  && !EmptyBranchReachable(s))
  {
    Reached(n, upToDate, acts);
    RunOrders(Init<T>(n, upToDate), acts);
    RunCounts(Init<T>(n, upToDate), acts);
    EmptyStart<T>(n, upToDate);
    hide Legal, Exec, Init, Ran, Enqueues;
    var s := Exec(Init<T>(n, upToDate), acts);
    if i :| 0 <= i < s.N() && s.workers[i].pc.AtLock? {
      SumAtLeast(s.workers, i, PastW<T>());
    }
  }

  lemma EmptyStart<T>(n: nat, upToDate: bool)
    ensures var s := Init<T>(n, upToDate); s.tasks == [] && s.dispatched == [] && s.pending == 0 && s.tokens == 0
  {
  }

  /** Before shutdown no task is stranded: while one is queued, a worker or an enqueuer can move. */
  lemma {:induction false} NoTaskStranded<T>(n: nat, upToDate: bool, acts: seq<Action<T>>)
    requires n > 0 && Legal(Init<T>(n, upToDate), acts)
    requires var s := Exec(Init<T>(n, upToDate), acts); !s.stopping && s.tasks != []
    ensures exists a :: Progress(Exec(Init<T>(n, upToDate), acts), a)
  {
    TokenAccounting(n, upToDate, acts);
    Reached(n, upToDate, acts);
    hide Legal, Exec, Init;
    var s := Exec(Init<T>(n, upToDate), acts);
    assert WorkerOk(s, s.workers[0]);
    if s.pending > 0 {
      assert Progress(s, EnqRelease);
    } else {
      var i := 0;
      if s.tokens == 0 {
        i := SumPositive(s.workers, PastW());
      }
      var a := WorkerCanMove(s, i);
      assert Progress(s, a);
    }
  }

  lemma {:induction false} SumOrder<T>(s: seq<Worker<T>>, v: Worker<T> -> int, w: Worker<T> -> int)
    requires forall p :: p in s ==> v(p) <= w(p)
    ensures Sum(s, v) <= Sum(s, w)
    decreases |s|
  {
    if s != [] {
      SumOrder(s[..|s| - 1], v, w);
    }
  }

  /**
   * From the moment m_stopping is set, tokens plus the destructor's remaining releases
   * cover every worker waiting at acquire; so once the destructor's loop is over, every
   * worker that has not exited can take a step. Holds with stale reads as well.
   */
  lemma {:induction false} NoWorkerLeftWaiting<T>(n: nat, upToDate: bool, acts: seq<Action<T>>)
    requires Legal(Init<T>(n, upToDate), acts) && Exec(Init<T>(n, upToDate), acts).stopping
    ensures var s := Exec(Init<T>(n, upToDate), acts);
            && s.N() == n
            && s.tokens + s.Owed() >= Sum(s.workers, WaitingW())
            && (s.dtor.Done? ==>
                  forall i :: 0 <= i < n && !s.workers[i].pc.Exited? ==>
                    exists a :: WorkerStep(a) && a.w == i && Enabled(s, a))
  {
    Reached(n, upToDate, acts);
    hide Legal, Exec, Init;
    var s := Exec(Init<T>(n, upToDate), acts);
    SumOrder(s.workers, WaitingW(), CreditW<T>());
    if s.dtor.Done? {
      forall i | 0 <= i < n && !s.workers[i].pc.Exited?
        ensures exists a :: WorkerStep(a) && a.w == i && Enabled(s, a)
      {
        if s.workers[i].pc.AtAcquire? {
          SumAtLeast(s.workers, i, WaitingW<T>());
        }
        var a := WorkerCanMove(s, i);
      }
    }
  }

  /**
   * Each worker is handed at most one further task: after m_stopping is set when reads
   * are up to date, and in any case after its first acquire that follows a release by
   * the destructor.
   */
  lemma {:induction false} AtMostOneFurtherTask<T>(n: nat, upToDate: bool, acts: seq<Action<T>>)
    requires Legal(Init<T>(n, upToDate), acts)
    ensures var s := Exec(Init<T>(n, upToDate), acts);
            && s.N() == n
            && (forall i :: 0 <= i < n ==> s.workers[i].ran <= 1)
            && (upToDate && s.stopping ==> forall i :: 0 <= i < n ==> s.workers[i].aware)
  {
    Reached(n, upToDate, acts);
    hide Legal, Exec, Init;
    var s := Exec(Init<T>(n, upToDate), acts);
    forall i | 0 <= i < n ensures s.workers[i].ran <= 1 && (upToDate && s.stopping ==> s.workers[i].aware) {
      assert WorkerOk(s, s.workers[i]);
    }
  }

  /** How many tasks worker w starts to run. */
  function RunsBy<T>(s: State<T>, acts: seq<Action<T>>, w: nat): nat
    requires Legal(s, acts)
    decreases acts
  {
    if acts == [] then 0
    else
      (if WorkerStep(acts[0]) && acts[0].w == w then |Started(s, acts[0])| else 0)
      + RunsBy(Apply(s, acts[0]), acts[1..], w)
  }

  lemma StepRunsBy<T>(s: State<T>, a: Action<T>, w: nat)
    requires Enabled(s, a) && w < s.N() && s.workers[w].aware
    ensures Apply(s, a).N() == s.N() && Apply(s, a).workers[w].aware
    ensures Apply(s, a).workers[w].ran ==
            s.workers[w].ran + if WorkerStep(a) && a.w == w then |Started(s, a)| else 0
  {
  }

  lemma {:induction false} RunsByCounted<T>(s: State<T>, acts: seq<Action<T>>, w: nat)
    requires Legal(s, acts) && w < s.N() && s.workers[w].aware
    ensures Exec(s, acts).N() == s.N()
    ensures Exec(s, acts).workers[w].ran == s.workers[w].ran + RunsBy(s, acts, w)
    decreases acts
  {
    if acts != [] {
      hide Enabled, Apply, Started;
      StepRunsBy(s, acts[0], w);
      RunsByCounted(Apply(s, acts[0]), acts[1..], w);
    }
  }

  /**
   * However the run goes on, a worker that can no longer read m_stopping as false starts
   * at most one more task; with current reads that is every worker once m_stopping is set.
   */
  lemma {:induction false} AtMostOneMoreRun<T>(
      n: nat, upToDate: bool, before: seq<Action<T>>, acts: seq<Action<T>>, w: nat)
    requires Legal(Init<T>(n, upToDate), before) && Legal(Exec(Init<T>(n, upToDate), before), acts) && w < n
    ensures var s := Exec(Init<T>(n, upToDate), before);
            && s.N() == n
            && (upToDate && s.stopping ==> s.workers[w].aware)
            && (s.workers[w].aware ==> RunsBy(s, acts, w) <= 1)
  {
    var s := Exec(Init<T>(n, upToDate), before);
    Reached(n, upToDate, before);
    RunKeepsInv(s, acts);
    assert WorkerOk(s, s.workers[w]);
    if s.workers[w].aware {
      RunsByCounted(s, acts, w);
      assert WorkerOk(Exec(s, acts), Exec(s, acts).workers[w]);
    }
  }

  // ------------------------------------------------------------------- termination

  /** Shutdown is visible to every worker, now or after its next acquire. */
  ghost predicate ShutdownVisible<T>(s: State<T>) {
    s.stopping && (s.upToDate || s.Owed() < s.N())
  }

  /** How many more steps a worker can take once shutdown is visible, at most. */
  function RankW<T>(): Worker<T> -> int {
    (p: Worker<T>) =>
      match p.pc
      case Exited => 0
      case AtStoppingTest => if p.aware then 1 else 7
      case AtStopTest => if p.aware then 2 else 8
      case Running(_) => if p.aware then 3 else 9
      case AtLock => if p.aware then 4 else 10
      case AtCheck => if p.aware then 5 else 11
      case AtAcquire => 6
  }

  function WorkerSteps<T>(acts: seq<Action<T>>): nat {
    if acts == [] then 0 else (if WorkerStep(acts[0]) then 1 else 0) + WorkerSteps(acts[1..])
  }

  lemma StepDescends<T>(s: State<T>, a: Action<T>)
    requires Inv(s) && ShutdownVisible(s) && Enabled(s, a)
    ensures ShutdownVisible(Apply(s, a))
    ensures Sum(Apply(s, a).workers, RankW()) <= Sum(s.workers, RankW()) - if WorkerStep(a) then 1 else 0
  {
    hide CountOk, OrderOk, Sum;
    var s' := Apply(s, a);
    if WorkerStep(a) {
      assert WorkerOk(s, s.workers[a.w]);
      SumUpdate(s.workers, a.w, NextWorker(s, a), RankW());
    } else if a.DRequest? {
      SumUpdate(s.workers, s.dtor.k, s'.workers[s.dtor.k], RankW());
    }
  }

  /**
   * Bounded exit: from any reachable state in which shutdown is visible, however the
   * run goes on, the workers together take at most Sum(RankW) further steps: 11 per
   * worker, and 6 when reads are up to date.
   */
  lemma {:induction false} ShutdownIsBounded<T>(s: State<T>, acts: seq<Action<T>>)
    requires Inv(s) && ShutdownVisible(s) && Legal(s, acts)
    ensures WorkerSteps(acts) + Sum(Exec(s, acts).workers, RankW()) <= Sum(s.workers, RankW())
    ensures Sum(s.workers, RankW()) <= (if s.upToDate then 6 else 11) * s.N()
    ensures Sum(Exec(s, acts).workers, RankW()) >= 0
    decreases acts
  {
    assert forall i :: 0 <= i < s.N() ==> WorkerOk(s, s.workers[i]);
    SumAtMost(s.workers, RankW<T>(), if s.upToDate then 6 else 11);
    if acts == [] {
      SumNonNegative(s.workers, RankW<T>());
    } else {
      StepDescends(s, acts[0]);
      StepKeepsInv(s, acts[0]);
      hide Inv, Sum, Apply;
      ShutdownIsBounded(Apply(s, acts[0]), acts[1..]);
    }
  }

  // ------------------------------------------------------- what is not promised

  /** Tasks still queued when m_stopping is set may never run: every worker can exit past them. */
  lemma ShutdownCanDropTasks<T>(task: T)
    ensures exists acts ::
      && Legal(Init<T>(1, true), acts)
      && var s := Exec(Init<T>(1, true), acts);
      && s.dtor.Done? && s.N() == 1 && s.workers[0].pc.Exited? && s.tasks == [task] && s.dispatched == []
  {
    var s0 := Init<T>(1, true);
    var s1 := Apply(s0, EnqPush(task));
    var s2 := Apply(s1, EnqRelease);
    var s3 := Apply(s2, DBegin);
    var end := WorkerLeavesFirst(s3, task);
    hide Legal, Exec;
    Cons(s2, DBegin, end);
    end := [DBegin] + end;
    Cons(s1, EnqRelease, end);
    end := [EnqRelease] + end;
    Cons(s0, EnqPush(task), end);
  }

  /** m_stopping is set while the worker is about to test it: it leaves without looking at the queue. */
  lemma WorkerLeavesFirst<T>(s3: State<T>, task: T) returns (end: seq<Action<T>>)
    requires s3.dtor == Releasing(0) && s3.stopping && s3.tasks == [task] && s3.dispatched == []
    requires s3.N() == 1 && s3.workers[0] == Worker(AtStopTest, false, true, 0)
    ensures Legal(s3, end)
    ensures var s := Exec(s3, end);
            s.dtor.Done? && s.N() == 1 && s.workers[0].pc.Exited? && s.tasks == [task] && s.dispatched == []
  {
    var s4 := Apply(s3, WTestStop(0, false));
    var s5 := Apply(s4, WTestStopping(0, true));
    var s6 := Apply(s5, DRelease);
    var s7 := Apply(s6, DRequest);
    hide Legal, Exec;
    end := [];
    Nil(s7);
    Cons(s6, DRequest, end);
    end := [DRequest] + end;
    Cons(s5, DRelease, end);
    end := [DRelease] + end;
    Cons(s4, WTestStopping(0, true), end);
    end := [WTestStopping(0, true)] + end;
    Cons(s3, WTestStop(0, false), end);
    end := [WTestStop(0, false)] + end;
  }

  lemma Nil<T>(s: State<T>)
    ensures Legal(s, []) && Exec(s, []) == s
  {
  }

  lemma {:induction false} Cons<T>(s: State<T>, a: Action<T>, acts: seq<Action<T>>)
    requires Enabled(s, a) && Legal(Apply(s, a), acts)
    ensures Legal(s, [a] + acts) && Exec(s, [a] + acts) == Exec(Apply(s, a), acts)
  {
  }

  // ------------------------------------------------------------ the object in place

  /** The workers' real positions and stop flags agree with the model's. */
  ghost predicate Mirrors<T>(pcs: seq<Pc<T>>, stops: seq<bool>, workers: seq<Worker<T>>) {
    && |pcs| == |stops| == |workers|
    && forall i :: 0 <= i < |pcs| ==> pcs[i] == workers[i].pc && stops[i] == workers[i].stop
  }

  lemma InitMirrors<T>(n: nat, upToDate: bool)
    ensures Mirrors(seq(n, _ => AtStopTest), seq(n, _ => false), Init<T>(n, upToDate).workers)
  {
  }

  /** Before shutdown a token comes with a task. */
  lemma TokenMeansTask<T>(s: State<T>)
    requires Inv(s)
    ensures !s.stopping && s.tokens > 0 ==> s.tasks != []
  {
    PastNonNegative(s);
  }

  /** The pool object; each statement of a worker, an enqueuer or the destructor updates the fields in place. */
  class Pool<T> {
    var tasks: seq<T>
    var tokens: nat
    var stopping: bool
    var pcs: seq<Pc<T>>
    var stops: seq<bool>
    ghost var model: State<T>

    ghost predicate Valid()
      reads this
    {
      && model.tasks == tasks && model.tokens == tokens && model.stopping == stopping
      && Mirrors(pcs, stops, model.workers)
      && Inv(model)
    }

    constructor (n: nat, upToDate: bool)
      ensures Valid() && model == Init<T>(n, upToDate)
    {
      InitInv<T>(n, upToDate);
      InitMirrors<T>(n, upToDate);
      hide Inv, Mirrors;
      tasks, tokens, stopping := [], 0, false;
      pcs, stops := seq(n, _ => AtStopTest), seq(n, _ => false);
      model := Init<T>(n, upToDate);
    }

    ghost method Advance(a: Action<T>)
      requires Inv(model) && Enabled(model, a)
      modifies this`model
      ensures Inv(model) && model == Apply(old(model), a) && model.N() == old(model).N()
    {
      StepKeepsInv(model, a);
      model := Apply(model, a);
    }

    /** The locked part of enqueue. */
    method Push(task: T)
      requires Valid()
      modifies this
      ensures Valid() && model == Apply(old(model), EnqPush(task))
      ensures tasks == old(tasks) + [task] && model.pending == old(model.pending) + 1
      ensures tokens == old(tokens) && stopping == old(stopping) && pcs == old(pcs) && stops == old(stops)
    {
      Advance(EnqPush(task));
      tasks := tasks + [task];
    }

    /** The release that ends enqueue. */
    method Release()
      requires Valid() && model.pending > 0
      modifies this
      ensures Valid() && model == Apply(old(model), EnqRelease)
      ensures tokens == old(tokens) + 1 && model.pending == old(model.pending) - 1
      ensures tasks == old(tasks) && stopping == old(stopping) && pcs == old(pcs) && stops == old(stops)
    {
      Advance(EnqRelease);
      tokens := tokens + 1;
    }

    /** What the worker's loop body does at one statement; `saw` is what the flag read there returns. */
    method WorkerStatement(a: Action<T>)
      requires Valid() && WorkerStep(a) && Enabled(model, a)
      modifies this
      ensures Valid() && model == Apply(old(model), a)
    {
      hide Inv;
      Advance(a);
      var pc;
      match a {
        case WTestStop(_, saw) => pc := if saw then Exited else AtStoppingTest;
        case WTestStopping(_, saw) => pc := if saw then Exited else AtAcquire;
        case WAcquire(_) =>
          tokens := tokens - 1;
          pc := AtCheck;
        case WCheck(_, saw) => pc := if saw && tasks == [] then Exited else AtLock;
        case WDequeue(_) =>
          if tasks == [] {
            pc := AtStopTest;
          } else {
            pc := Running(tasks[0]);
            tasks := tasks[1..];
          }
        case WFinish(_) => pc := AtStopTest;
      }
      pcs := pcs[a.w := pc];
    }

    /**
     * One turn of the worker's loop up to the point where it runs a task, uninterrupted;
     * the flags say what the three reads return. Before shutdown it always finds a task.
     */
    method WorkerTurn(w: nat, sawStop: bool, sawStopping: bool, sawStopAfter: bool) returns (task: Option<T>)
      requires Valid() && w < |pcs| && pcs[w].AtStopTest?
      requires sawStop || sawStopAfter ==> stops[w]
      requires (sawStopping == stopping || (!sawStopping && CanReadOldFlag(w)))
      requires !sawStop && !sawStopping ==> tokens > 0
      modifies this
      ensures Valid() && stops == old(stops) && stopping == old(stopping)
      ensures old(tasks) == (if task.Some? then [task.value] else []) + tasks
      ensures model.dispatched == old(model.dispatched) + if task.Some? then [task.value] else []
      ensures task.None? <==> sawStop || sawStopping || old(tasks) == []
      ensures tokens == if sawStop || sawStopping then old(tokens) else old(tokens) - 1
      ensures pcs == old(pcs)[w := if task.Some? then Running(task.value)
                                   else if sawStop || sawStopping || sawStopAfter then Exited
                                   else AtStopTest]
      ensures !old(stopping) && !sawStop && !sawStopping ==> task.Some?
    {
      TokenMeansTask(model);
      hide Inv, Mirrors;
      var go := TestFlags(w, sawStop, sawStopping);
      if go {
        task := AcquireAndTake(w, sawStopAfter);
      } else {
        task := None;
      }
    }

    /** The two halves of the loop condition. */
    method TestFlags(w: nat, sawStop: bool, sawStopping: bool) returns (go: bool)
      requires Valid() && w < |pcs| && pcs[w].AtStopTest?
      requires (sawStop ==> stops[w]) && (sawStopping == stopping || (!sawStopping && CanReadOldFlag(w)))
      modifies this`pcs, this`model
      ensures Valid() && go == (!sawStop && !sawStopping)
      ensures pcs == old(pcs)[w := if go then AtAcquire else Exited]
      ensures model.dispatched == old(model.dispatched)
    {
      hide Inv;
      Advance(WTestStop(w, sawStop));
      go := !sawStop;
      if go {
        Advance(WTestStopping(w, sawStopping));
        go := !sawStopping;
      }
      pcs := pcs[w := if go then AtAcquire else Exited];
    }

    /** The loop body up to the point where it runs the task. */
    method AcquireAndTake(w: nat, sawStop: bool) returns (task: Option<T>)
      requires Valid() && w < |pcs| && pcs[w].AtAcquire? && tokens > 0 && (sawStop ==> stops[w])
      modifies this`pcs, this`model, this`tokens, this`tasks
      ensures Valid() && tokens == old(tokens) - 1
      ensures old(tasks) == (if task.Some? then [task.value] else []) + tasks
      ensures task.None? <==> old(tasks) == []
      ensures model.dispatched == old(model.dispatched) + if task.Some? then [task.value] else []
      ensures pcs == old(pcs)[w := if task.Some? then Running(task.value)
                                   else if sawStop then Exited else AtStopTest]
    {
      hide Inv, Mirrors;
      var out := Acquire(w, sawStop);
      if out {
        task := None;
      } else {
        task := Dequeue(w);
      }
    }

    /** Take a token, then test the stop flag and the queue. */
    method Acquire(w: nat, sawStop: bool) returns (out: bool)
      requires Valid() && w < |pcs| && pcs[w].AtAcquire? && tokens > 0 && (sawStop ==> stops[w])
      modifies this`pcs, this`model, this`tokens
      ensures Valid() && tokens == old(tokens) - 1 && out == (sawStop && tasks == [])
      ensures model.dispatched == old(model.dispatched)
      ensures pcs == old(pcs)[w := if out then Exited else AtLock]
    {
      hide Inv;
      Advance(WAcquire(w));
      tokens := tokens - 1;
      Advance(WCheck(w, sawStop));
      out := sawStop && tasks == [];
      pcs := pcs[w := if out then Exited else AtLock];
    }

    /** The locked part of the loop body. */
    method Dequeue(w: nat) returns (task: Option<T>)
      requires Valid() && w < |pcs| && pcs[w].AtLock?
      modifies this`pcs, this`model, this`tasks
      ensures Valid()
      ensures old(tasks) == (if task.Some? then [task.value] else []) + tasks
      ensures task.None? <==> old(tasks) == []
      ensures model.dispatched == old(model.dispatched) + if task.Some? then [task.value] else []
      ensures pcs == old(pcs)[w := if task.Some? then Running(task.value) else AtStopTest]
    {
      hide Inv;
      Advance(WDequeue(w));
      if tasks == [] {
        pcs := pcs[w := AtStopTest];
        return None;
      }
      task := Some(tasks[0]);
      tasks := tasks[1..];
      pcs := pcs[w := Running(task.value)];
    }

    /** A read of m_stopping by worker w may still return the old value false. */
    ghost predicate CanReadOldFlag(w: nat)
      reads this
    {
      stopping && w < model.N() && !model.workers[w].aware
    }

    /** What the destructor does for one worker. */
    method StopWorker(k: nat)
      requires Valid() && model.dtor == Releasing(k) && k < |pcs|
      modifies this
      ensures Valid() && pcs == old(pcs) && tasks == old(tasks) && stopping == old(stopping)
      ensures tokens == old(tokens) + 1 && stops == old(stops)[k := true]
      ensures model.dtor == if k + 1 == |pcs| then Done else Releasing(k + 1)
    {
      hide Inv;
      tokens := tokens + 1;
      Advance(DRelease);
      stops := stops[k := true];
      Advance(DRequest);
    }

    /** The destructor's body, run without interruption: set the flag, then release and stop each worker. */
    method Shutdown()
      requires Valid() && model.dtor.NotStarted?
      modifies this
      ensures Valid() && model.dtor.Done? && stopping
      ensures tokens == old(tokens) + |pcs| && pcs == old(pcs) && tasks == old(tasks)
      ensures forall i :: 0 <= i < |stops| ==> stops[i]
    {
      hide Inv;
      stopping := true;
      Advance(DBegin);
      var k := 0;
      while k < |pcs|
        invariant 0 <= k <= |pcs| == |stops| && Valid() && stopping
        invariant model.dtor == if k == |pcs| then Done else Releasing(k)
        invariant pcs == old(pcs) && tasks == old(tasks) && tokens == old(tokens) + k
        invariant forall i :: 0 <= i < k ==> stops[i]
      {
        StopWorker(k);
        k := k + 1;
      }
    }
  }
}

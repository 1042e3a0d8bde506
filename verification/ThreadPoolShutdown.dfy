/** Exactly which tasks the pool leaves behind when every worker has exited. */
module ThreadPoolShutdown {
  import opened Tally
  import opened ThreadPool

  /** Workers past the flag tests of their loop that have not reached the queue: each can still take one task. */
  function MayW<T>(): Worker<T> -> int {
    (p: Worker<T>) => if p.pc.AtAcquire? || p.pc.AtCheck? || p.pc.AtLock? then 1 else 0
  }

  /** A read of m_stopping that returns false: it lets its worker go round the loop once more. */
  function FalseRead<T>(a: Action<T>): nat {
    if a.WTestStopping? && !a.saw then 1 else 0
  }

  function FalseReads<T>(acts: seq<Action<T>>): nat {
    if acts == [] then 0 else FalseRead(acts[0]) + FalseReads(acts[1..])
  }

  predicate NoEnqueue<T>(acts: seq<Action<T>>) {
    forall i :: 0 <= i < |acts| ==> !acts[i].EnqPush?
  }

  ghost predicate AllExited<T>(s: State<T>) {
    forall i :: 0 <= i < s.N() ==> s.workers[i].pc.Exited?
  }

  function Excess(tasks: nat, takers: int): nat {
    if tasks <= takers then 0 else tasks - takers
  }

  /** How many tasks stay if every worker that still can, and `later` more rounds, take one each. */
  ghost function Left<T>(s: State<T>, later: nat): nat {
    Excess(|s.tasks|, Sum(s.workers, MayW()) + later)
  }

  /** What is queued after a step is the back of what was queued before it. */
  ghost predicate Back<T>(tasks': seq<T>, tasks: seq<T>) {
    |tasks'| <= |tasks| && tasks' == tasks[|tasks| - |tasks'|..]
  }

  lemma StepKeepsExcess<T>(s: State<T>, a: Action<T>, later: nat)
    requires Enabled(s, a) && !a.EnqPush?
    ensures Left(Apply(s, a), later) == Left(s, FalseRead(a) + later)
    ensures Back(Apply(s, a).tasks, s.tasks)
  {
    hide Sum;
    var s' := Apply(s, a);
    SumNonNegative(s.workers, MayW<T>());
    SumNonNegative(s'.workers, MayW<T>());
    if WorkerStep(a) {
      SumUpdate(s.workers, a.w, NextWorker(s, a), MayW());
      SumAtLeast(s.workers, a.w, MayW<T>());
    } else if a.DBegin? {
      SumSame(s.workers, s'.workers, MayW());
    } else if a.DRequest? {
      SumUpdate(s.workers, s.dtor.k, s'.workers[s.dtor.k], MayW());
    }
  }

  lemma BackOfBack<T>(a: seq<T>, b: seq<T>, c: seq<T>)
    requires Back(a, b) && Back(b, c)
    ensures Back(a, c)
  {
  }

  lemma {:induction false} RunKeepsExcess<T>(s: State<T>, acts: seq<Action<T>>)
    requires Legal(s, acts) && NoEnqueue(acts)
    ensures Left(Exec(s, acts), 0) == Left(s, FalseReads(acts))
    ensures Back(Exec(s, acts).tasks, s.tasks)
    decreases acts
  {
    if acts != [] {
      hide Apply, Enabled, FalseRead, Left, Back;
      var s' := Apply(s, acts[0]);
      StepKeepsExcess(s, acts[0], FalseReads(acts[1..]));
      RunKeepsExcess(s', acts[1..]);
      BackOfBack(Exec(s', acts[1..]).tasks, s'.tasks, s.tasks);
    } else {
      hide Left;
    }
  }

  lemma {:induction false} NobodyLeft<T>(workers: seq<Worker<T>>)
    requires forall p :: p in workers ==> p.pc.Exited?
    ensures Sum(workers, MayW()) == 0
    decreases |workers|
  {
    if workers != [] {
      NobodyLeft(workers[..|workers| - 1]);
    }
  }

  /** Once m_stopping is set, current reads of it never return false. */
  lemma {:induction false} NoFalseReads<T>(s: State<T>, acts: seq<Action<T>>)
    requires Inv(s) && s.stopping && s.upToDate && Legal(s, acts)
    ensures FalseReads(acts) == 0
    decreases acts
  {
    if acts != [] {
      hide CountOk, OrderOk, ShutdownOk;
      var a := acts[0];
      if a.WTestStopping? {
        assert WorkerOk(s, s.workers[a.w]);
      }
      StepKeepsInv(s, a);
      NoFalseReads(Apply(s, a), acts[1..]);
    }
  }

  /**
   * The tasks a shutdown drops. From any reachable state, if nothing more is enqueued and
   * every worker has exited: the workers then past the flag tests, and each later read of
   * m_stopping that returns false, have taken one task each from the front; the rest are
   * dropped. With reads that are current there is no such later read once m_stopping is
   * set, so every queued task runs if and only if the tasks are no more than those workers.
   */
  lemma {:induction false} DroppedExactly<T>(n: nat, upToDate: bool, before: seq<Action<T>>, acts: seq<Action<T>>)
    requires Legal(Init<T>(n, upToDate), before) && Legal(Exec(Init<T>(n, upToDate), before), acts)
    requires NoEnqueue(acts) && AllExited(Exec(Exec(Init<T>(n, upToDate), before), acts))
    ensures var s := Exec(Init<T>(n, upToDate), before);
            var end, takers := Exec(s, acts), Sum(s.workers, MayW());
            && |end.tasks| == Excess(|s.tasks|, takers + FalseReads(acts))
            && Back(end.tasks, s.tasks)
            && (end.tasks == [] <==> |s.tasks| <= takers + FalseReads(acts))
            && (upToDate && s.stopping ==>
                  FalseReads(acts) == 0 && (end.tasks == [] <==> |s.tasks| <= takers))
  {
    Reached(n, upToDate, before);
    hide Legal, Exec, Init, Inv, Sum;
    var s := Exec(Init<T>(n, upToDate), before);
    RunKeepsExcess(s, acts);
    NobodyLeft(Exec(s, acts).workers);
    if upToDate && s.stopping {
      NoFalseReads(s, acts);
    }
  }
}

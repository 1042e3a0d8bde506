/**
 * Failing calls of the ring buffer, placed anywhere in their own interval: exactly when
 * some moment between the call and its load of the other index justifies the answer.
 */
module SpscFailures {
  import opened Options
  import opened Words
  import opened SpscMachine
  import opened SpscProofs
  import opened SpscTheorems
  import opened SpscSafety

  /** What happens between the call of emplace and its load of the tail. */
  predicate DuringEmplace<T>(acts: seq<Action<T>>) {
    forall i :: 0 <= i < |acts| ==> ByConsumer(acts[i]) || acts[i].PLoadHead?
  }

  /** What happens between the call of pop and its load of the head. */
  predicate DuringPop<T>(acts: seq<Action<T>>) {
    forall i :: 0 <= i < |acts| ==> !ByConsumer(acts[i]) || acts[i].CLoadTail?
  }

  /** The successful calls so far, in the order they took effect. */
  ghost function Log<T>(s: State<T>): seq<Event<T>> {
    Successes(s.effects)
  }

  /** They are a bounded FIFO's, and it now holds what the ring holds. */
  ghost predicate Replayed<T>(s: State<T>) {
    Inv(s) && Replay(s.Cap(), Log(s)) == Some(Queued(s))
  }

  /** A bounded FIFO gives this answer after the first k successful calls. */
  ghost predicate AnswersAt<T>(cap: nat, log: seq<Event<T>>, k: nat, e: Event<T>) {
    && k <= |log|
    && Replay(cap, log[..k]).Some?
    && Accept(cap, Replay(cap, log[..k]).value, e).Some?
  }

  /** Some moment after the first n successful calls justifies the answer. */
  ghost predicate HasPlace<T>(cap: nat, log: seq<Event<T>>, n: nat, e: Event<T>) {
    exists k: nat :: n <= k && AnswersAt(cap, log, k, e)
  }

  // ------------------------------------------------------------------- what is logged

  /** From s to s' only one thread completed calls: the consumer, or else the producer. */
  ghost predicate Advances<T>(s: State<T>, s': State<T>, pops: bool) {
    && s'.logCap == s.logCap
    && s.t <= s'.t && s.h <= s'.h
    && (if pops then s'.h == s.h && s'.seenTail == s.seenTail else s'.t == s.t && s'.seenHead == s.seenHead)
    && LogGrows(Log(s), Log(s'), pops, (s'.t - s.t) + (s'.h - s.h))
  }

  ghost predicate LogGrows<T>(a: seq<Event<T>>, b: seq<Event<T>>, pops: bool, n: nat) {
    && |b| == |a| + n && b[..|a|] == a
    && forall i :: |a| <= i < |b| ==> if pops then b[i].PopOk? else b[i].PushOk?
  }

  lemma {:induction false} LogGrowsThen<T>(
      a: seq<Event<T>>, b: seq<Event<T>>, c: seq<Event<T>>, pops: bool, m: nat, n: nat)
    requires LogGrows(a, b, pops, m) && LogGrows(b, c, pops, n)
    ensures LogGrows(a, c, pops, m + n)
  {
    assert c[..|a|] == c[..|b|][..|a|];
    forall i | |a| <= i < |c| ensures if pops then c[i].PopOk? else c[i].PushOk? {
      if i < |b| {
        assert c[i] == c[..|b|][i];
      }
    }
  }

  lemma StepLogs<T>(s: State<T>, a: Action<T>)
    requires s.Shaped() && Enabled(s, a)
    ensures Log(Apply(s, a)) == Log(s) + if a.PPublish? then [PushOk(s.prod.x)]
                                         else if a.CPublish? then [PopOk(s.cons.out)] else []
  {
    if a.PPublish? {
      ReplaySnoc(0, s.effects, PushOk(s.prod.x));
    } else if a.CPublish? {
      ReplaySnoc(0, s.effects, PopOk(s.cons.out));
    } else {
      SuccessesUnchanged(s, a);
    }
  }

  lemma StepAdvances<T>(s: State<T>, a: Action<T>, pops: bool)
    requires s.Shaped() && Enabled(s, a)
    requires if pops then ByConsumer(a) || a.PLoadHead? else !ByConsumer(a) || a.CLoadTail?
    ensures Advances(s, Apply(s, a), pops)
  {
    hide Log, BitAnd, Pow2, Wrap;
    StepLogs(s, a);
  }

  lemma {:induction false} RunAdvances<T>(s: State<T>, acts: seq<Action<T>>, pops: bool)
    requires Replayed(s) && Legal(s, acts) && if pops then DuringEmplace(acts) else DuringPop(acts)
    ensures Replayed(Exec(s, acts)) && Advances(s, Exec(s, acts), pops)
    decreases acts
  {
    if acts == [] {
      assert LogGrows(Log(s), Log(s), pops, 0);
    } else {
      var s1, s' := Apply(s, acts[0]), Exec(s, acts);
      StepReplaysSuccesses(s, acts[0]);
      StepAdvances(s, acts[0], pops);
      hide Log, Replay, Inv, Apply, Enabled, ByConsumer, LogGrows, Queued;
      RunAdvances(s1, acts[1..], pops);
      LogGrowsThen(Log(s), Log(s1), Log(s'), pops, (s1.t - s.t) + (s1.h - s.h), (s'.t - s1.t) + (s'.h - s1.h));
    }
  }

  // ----------------------------------------------------------- what the prefixes replay to

  /** Each of the calls added in between takes one element out, or puts one in. */
  lemma {:induction false} PrefixReplays<T>(cap: nat, a: seq<Event<T>>, b: seq<Event<T>>, pops: bool, n: nat, k: nat)
    requires LogGrows(a, b, pops, n) && |a| <= k <= |b|
    requires Replay(cap, a).Some? && Replay(cap, b).Some?
    ensures Replay(cap, b[..k]).Some?
    ensures |Replay(cap, b[..k]).value| == |Replay(cap, a).value| + if pops then |a| - k else k - |a|
    decreases |b|
  {
    if |b| == |a| {
      assert b[..k] == b && a == b;
    } else {
      var front := b[..|b| - 1];
      assert LogGrows(a, front, pops, n - 1);
      if k == |b| {
        assert b[..k] == b;
        PrefixReplays(cap, a, front, pops, n - 1, |front|);
        assert front[..|front|] == front;
      } else {
        PrefixReplays(cap, a, front, pops, n - 1, k);
        assert front[..k] == b[..k];
      }
    }
  }

  // -------------------------------------------------------------------- the promises

  /** The run so far satisfies everything proved of all runs. */
  lemma {:induction false} ReachedReplays<T>(logCap: nat, before: seq<Action<T>>)
    requires logCap <= 63 && Legal(Init<T>(logCap), before)
    ensures Replayed(Exec(Init<T>(logCap), before))
  {
    Linearizable(logCap, before);
    ContentsAreBorn(Exec(Init<T>(logCap), before));
    SameCap(Init<T>(logCap), before);
  }

  lemma QueuedLength<T>(s: State<T>)
    requires Inv(s)
    ensures s.t <= s.h <= |s.born| && |Queued(s)| == s.h - s.t
  {
  }

  lemma FullPlaceIff<T>(s: State<T>, s': State<T>, c: nat)
    requires Replayed(s) && Replayed(s') && Advances(s, s', true) && s'.h - c == s'.Cap() && c <= s'.t
    ensures HasPlace(s.Cap(), Log(s'), |Log(s)|, PushFull) <==> s.t <= c
  {
    var n, log := |Log(s)|, Log(s');
    hide Replay, Inv, Log;
    QueuedLength(s);
    if s.t <= c {
      PrefixReplays(s.Cap(), Log(s), log, true, s'.t - s.t, n + (c - s.t));
      assert AnswersAt(s.Cap(), log, n + (c - s.t), PushFull);
    }
    if k: nat :| n <= k && AnswersAt(s.Cap(), log, k, PushFull) {
      PrefixReplays(s.Cap(), Log(s), log, true, s'.t - s.t, k);
    }
  }

  lemma EmptyPlaceIff<T>(s: State<T>, s': State<T>, c: nat)
    requires Replayed(s) && Replayed(s') && Advances(s, s', false) && c == s'.t
    ensures HasPlace(s.Cap(), Log(s'), |Log(s)|, PopEmpty) <==> s.h <= c
  {
    var n, log := |Log(s)|, Log(s');
    hide Replay, Inv, Log;
    QueuedLength(s);
    if s.h <= c {
      PrefixReplays(s.Cap(), Log(s), log, false, s'.h - s.h, n);
      assert AnswersAt(s.Cap(), log, n, PopEmpty);
    }
    if k: nat :| n <= k && AnswersAt(s.Cap(), log, k, PopEmpty) {
      PrefixReplays(s.Cap(), Log(s), log, false, s'.h - s.h, k);
    }
  }

  /**
   * An emplace that fails, in any run: some moment between its call and its load of the
   * tail found the FIFO full if and only if the load is no older than the tail was at the
   * call. A producer that had seen that tail when it called is always justified.
   */
  lemma {:induction false} FailedEmplaceIff<T>(
      logCap: nat, before: seq<Action<T>>, x: T, during: seq<Action<T>>, c: nat)
    requires logCap <= 63 && Legal(Init<T>(logCap), before)
    requires Enabled(Exec(Init<T>(logCap), before), PCall(x))
    requires var s := Apply(Exec(Init<T>(logCap), before), PCall(x));
             && Legal(s, during) && DuringEmplace(during)
             && var s' := Exec(s, during);
             Enabled(s', PLoadTail(c)) && LooksFull(s', s'.prod.head, Wrap(c))
    ensures var s := Exec(Init<T>(logCap), before);
            var s' := Exec(Apply(s, PCall(x)), during);
            && (HasPlace(Pow2(logCap), Log(s'), |Log(s)|, PushFull) <==> s.t <= c)
            && (s.seenTail == s.t ==> s.t <= c)
  {
    var s0 := Exec(Init<T>(logCap), before);
    ReachedReplays(logCap, before);
    SameCap(Init<T>(logCap), before);
    var s := Apply(s0, PCall(x));
    var s' := Exec(s, during);
    StepReplaysSuccesses(s0, PCall(x));
    RunAdvances(s, during, true);
    hide Replay, Log, Successes, LogGrows, Legal, Exec, DuringEmplace, SlotsOk, LogsOk, BitAnd, Pow2, Wrap;
    FullTest(s', c);
    FullPlaceIff(s, s', c);
  }

  /** A pop that fails: the same, with the head and an empty FIFO. */
  lemma {:induction false} FailedPopIff<T>(logCap: nat, before: seq<Action<T>>, during: seq<Action<T>>, c: nat)
    requires logCap <= 63 && Legal(Init<T>(logCap), before)
    requires Enabled(Exec(Init<T>(logCap), before), CCall)
    requires var s := Apply(Exec(Init<T>(logCap), before), CCall);
             && Legal(s, during) && DuringPop(during)
             && var s' := Exec(s, during);
             Enabled(s', CLoadHead(c)) && Wrap(c) == s'.cons.tail
    ensures var s := Exec(Init<T>(logCap), before);
            var s' := Exec(Apply(s, CCall), during);
            && (HasPlace(Pow2(logCap), Log(s'), |Log(s)|, PopEmpty) <==> s.h <= c)
            && (s.seenHead == s.h ==> s.h <= c)
  {
    var s0 := Exec(Init<T>(logCap), before);
    ReachedReplays(logCap, before);
    SameCap(Init<T>(logCap), before);
    var s := Apply(s0, CCall);
    var s' := Exec(s, during);
    StepReplaysSuccesses(s0, CCall);
    RunAdvances(s, during, false);
    hide Replay, Log, Successes, LogGrows, Legal, Exec, DuringPop, SlotsOk, LogsOk, BitAnd, Pow2, Wrap;
    EmptyTest(s', c);
    EmptyPlaceIff(s, s', c);
  }
}

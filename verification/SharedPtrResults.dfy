/**
 * What each shared_ptr operation leaves in its handle once its steps are done, with any
 * steps of other handles in between.
 */
module SharedPtrResults {
  import opened Options
  import opened Words
  import opened Tally
  import opened SharedPtr
  import opened SharedPtrProofs

  /** No caller operates on handle k, or moves from it; an operation already begun on it may go on. */
  predicate Spares(a: Action, k: nat) {
    && (a.i == k ==> a.Step?)
    && (a.MoveNew? || a.MoveAssign? ==> a.j != k)
  }

  predicate AllSpare(acts: seq<Action>, k: nat) {
    forall x :: 0 <= x < |acts| ==> Spares(acts[x], k)
  }

  predicate AtRest(h: Handle) {
    h.pc.Idle? || h.pc.Dead?
  }

  function SameFields(h: Handle, src: Handle): bool {
    h.obj == src.obj && h.cb == src.cb
  }

  /** The pointer an operation adopts: null, or the next number. */
  function Adopted(s0: State, isNull: bool): Option<nat> {
    if isNull then None else Some(s0.objects)
  }

  /** What a caller finds in handle a.i after operation a, begun in s0, is over. */
  ghost predicate Result(s0: State, a: Action, s: State)
    requires Enabled(s0, a) && !a.Step? && a.i < |s.handles|
  {
    var h := s.handles[a.i];
    match a
    case New(_) => h == Handle(Idle, None, None)
    case NewPtr(_, isNull) => h.pc == Idle && h.obj == Adopted(s0, isNull) && OwnBlock(s0, h, s)
    case CopyNew(_, j) => h.pc == Idle && SameFields(h, s0.handles[j])
    case MoveNew(_, j) => h.pc == Idle && SameFields(h, s0.handles[j])
    case CopyAssign(_, j) => h.pc == Idle && SameFields(h, s0.handles[j])
    case MoveAssign(_, j) => h.pc == Idle && SameFields(h, s0.handles[j])
    case Reset(_) => h == Handle(Idle, None, None)
    case ResetPtr(_, isNull) =>
      if isNull then h == Handle(Idle, None, None)
      else h.pc == Idle && h.obj == Adopted(s0, false) && OwnBlock(s0, h, s)
    case Destroy(_) => h == Handle(Dead, None, None)
  }

  /** A control block made since s0, for the handle's own object. */
  predicate OwnBlock(s0: State, h: Handle, s: State) {
    && h.cb.Some? && |s0.blocks| <= h.cb.value < |s.blocks|
    && s.blocks[h.cb.value].adopted == h.obj
  }

  /** What the operation leaves in the handle it copies or moves from. */
  ghost predicate SourceResult(s0: State, a: Action, s: State)
    requires Enabled(s0, a) && |s.handles| == |s0.handles|
  {
    match a
    case CopyNew(_, j) => s.handles[j] == s0.handles[j]
    case CopyAssign(i, j) => i != j ==> s.handles[j] == s0.handles[j]
    case MoveNew(_, j) => s.handles[j] == Handle(Idle, None, None)
    case MoveAssign(i, j) => i != j ==> s.handles[j] == Handle(Idle, None, None)
    case _ => true
  }

  // ------------------------------------------------------------------ on the way there

  /** The continuation the operation works towards. */
  function Aim(s0: State, a: Action): Option<Cont> {
    match a
    case CopyAssign(i, j) => if i == j then None else Some(ThenCopy(j))
    case MoveAssign(i, j) => if i == j then None else Some(ThenMove(j))
    case Reset(_) => Some(ThenReset)
    case ResetPtr(_, isNull) => Some(ThenAdopt(Adopted(s0, isNull)))
    case Destroy(_) => Some(ThenEnd)
    case _ => None
  }

  function Source(a: Action): Option<nat> {
    match a
    case CopyNew(_, j) => Some(j)
    case CopyAssign(_, j) => Some(j)
    case MoveNew(_, j) => Some(j)
    case MoveAssign(_, j) => Some(j)
    case _ => None
  }

  /** Either the old reference is still being given up, or the new fields are in place. */
  ghost predicate OnTrack(s0: State, a: Action, s: State)
    requires Enabled(s0, a) && !a.Step? && |s.handles| == |s0.handles|
  {
    var h := s.handles[a.i];
    && |s0.blocks| <= |s.blocks|
    && Unmoved(s, a.i)
    && (if h.pc.Continuation().Some? then
          && h.pc.Continuation() == Aim(s0, a)
          && (h.ReadsFrom().Some? ==> SameFields(s.handles[h.ReadsFrom().value], s0.handles[h.ReadsFrom().value]))
        else if h.pc.AddRef? then
          Source(a).Some? && h.cb.Some? && SameFields(h, s0.handles[Source(a).value])
        else
          Result(s0, a, s))
  }

  lemma CallLeaves(s: State, b: Action, k: nat)
    requires Enabled(s, b) && !b.Step? && k < |s.handles| && b.i != k
    requires b.MoveNew? || b.MoveAssign? ==> b.j != k
    ensures |Apply(s, b).handles| == |s.handles| && Apply(s, b).handles[k] == s.handles[k]
  {
    hide Unread, Unmoved, Advance;
  }

  lemma StepLeaves(s: State, i: nat, k: nat)
    requires Enabled(s, Step(i)) && k < |s.handles| && i != k && s.handles[i].MovesFrom() != Some(k)
    ensures |Advance(s, i).handles| == |s.handles| && Advance(s, i).handles[k] == s.handles[k]
  {
    hide Unread, Unmoved, Wrap;
  }

  lemma MovesAfterCall(s: State, b: Action, m: nat)
    requires Enabled(s, b) && !b.Step? && m < |s.handles|
    ensures |Apply(s, b).handles| == |s.handles|
    ensures var f := Apply(s, b).handles[m].MovesFrom();
            f == None || f == s.handles[m].MovesFrom() || (b.MoveAssign? && b.i == m && f == Some(b.j))
  {
    hide Unread, Unmoved, Advance;
  }

  lemma MovesAfterStep(s: State, i: nat, m: nat)
    requires ReadsOk(s) && Enabled(s, Step(i)) && m < |s.handles|
    ensures |Advance(s, i).handles| == |s.handles|
    ensures var f := Advance(s, i).handles[m].MovesFrom(); f == None || f == s.handles[m].MovesFrom()
  {
    var j := s.handles[i].ReadsFrom();
    assert j.Some? ==> s.handles[j.value].pc.Idle?;
    hide Unread, Unmoved, Wrap, ReadsOk;
  }

  /** After a step a handle moves from where it did, or from nowhere, or from where a new call says. */
  lemma MovesAfter(s: State, b: Action, m: nat)
    requires ReadsOk(s) && Enabled(s, b) && m < |s.handles|
    ensures |Apply(s, b).handles| == |s.handles|
    ensures var f := Apply(s, b).handles[m].MovesFrom();
            f == None || f == s.handles[m].MovesFrom() || (b.MoveAssign? && b.i == m && f == Some(b.j))
  {
    hide ReadsOk, Unread, Unmoved, Advance;
    if b.Step? {
      MovesAfterStep(s, b.i, m);
    } else {
      MovesAfterCall(s, b, m);
    }
  }

  lemma StaysUnmoved(s: State, b: Action, k: nat)
    requires ReadsOk(s) && Enabled(s, b) && k < |s.handles| && Unmoved(s, k)
    requires b.MoveNew? || b.MoveAssign? ==> b.j != k
    ensures |Apply(s, b).handles| == |s.handles| && Unmoved(Apply(s, b), k)
  {
    MovesAfter(s, b, k);
    forall m | 0 <= m < |s.handles| ensures Apply(s, b).handles[m].MovesFrom() != Some(k) {
      MovesAfter(s, b, m);
    }
    hide Apply, Enabled;
  }

  /** A step that does not operate on handle k, or complete a move from it, leaves it alone. */
  lemma OthersLeave(s: State, b: Action, k: nat)
    requires ReadsOk(s) && Enabled(s, b) && k < |s.handles| && b.i != k && Unmoved(s, k)
    requires b.MoveNew? || b.MoveAssign? ==> b.j != k
    ensures |Apply(s, b).handles| == |s.handles| && Apply(s, b).handles[k] == s.handles[k]
    ensures Unmoved(Apply(s, b), k)
  {
    StaysUnmoved(s, b, k);
    if b.Step? {
      StepLeaves(s, b.i, k);
    } else {
      CallLeaves(s, b, k);
    }
    hide Enabled, Advance;
  }

  lemma BlocksStay(s: State, b: Action)
    requires Enabled(s, b)
    ensures |s.blocks| <= |Apply(s, b).blocks|
    ensures forall c :: 0 <= c < |s.blocks| ==> Apply(s, b).blocks[c].adopted == s.blocks[c].adopted
  {
    hide Wrap, Unread, Unmoved;
  }

  /** A handle that is being read stays as it is until its reader is done. */
  lemma ReadStays(s: State, b: Action, i: nat, j: nat)
    requires ReadsOk(s) && Enabled(s, b) && b.i != i
    requires i < |s.handles| && j < |s.handles| && s.handles[i].ReadsFrom() == Some(j)
    ensures |Apply(s, b).handles| == |s.handles| && Apply(s, b).handles[j] == s.handles[j]
  {
    assert !Unread(s, j) && s.handles[j].pc.Idle?;
    assert s.handles[b.i].MovesFrom() != Some(j);
    hide ReadsOk, Unread, Unmoved, Advance;
    if b.Step? {
      StepLeaves(s, b.i, j);
    } else {
      CallLeaves(s, b, j);
    }
  }

  lemma BeginsUnmoved(s0: State, a: Action)
    requires HandlesOk(s0) && ReadsOk(s0) && Enabled(s0, a) && !a.Step?
    ensures |Apply(s0, a).handles| == |s0.handles| && Unmoved(Apply(s0, a), a.i)
  {
    if s0.handles[a.i].pc.Dead? {
      BusyIsUnread(s0, a.i);
    }
    UnreadIsUnmoved(s0, a.i);
    if !a.MoveAssign? || a.i != a.j {
      StaysUnmoved(s0, a, a.i);
    }
  }

  lemma UnreadIsUnmoved(s: State, k: nat)
    requires Unread(s, k)
    ensures Unmoved(s, k)
  {
    forall m | 0 <= m < |s.handles| ensures s.handles[m].MovesFrom() != Some(k) {
      assert s.handles[m].ReadsFrom() != Some(k);
    }
  }

  lemma NewOnTrack(s0: State, a: Action)
    requires Enabled(s0, a) && (a.New? || a.NewPtr? || a.CopyNew? || a.MoveNew?)
    requires |Apply(s0, a).handles| == |s0.handles| && Unmoved(Apply(s0, a), a.i)
    ensures OnTrack(s0, a, Apply(s0, a))
  {
    hide Unread, Unmoved;
  }

  lemma AssignOnTrack(s0: State, a: Action)
    requires Enabled(s0, a) && (a.CopyAssign? || a.MoveAssign?)
    requires |Apply(s0, a).handles| == |s0.handles| && Unmoved(Apply(s0, a), a.i)
    ensures OnTrack(s0, a, Apply(s0, a))
  {
    hide Unread, Unmoved;
  }

  lemma ReleaseOnTrack(s0: State, a: Action)
    requires Enabled(s0, a) && (a.Reset? || a.ResetPtr? || a.Destroy?)
    requires |Apply(s0, a).handles| == |s0.handles| && Unmoved(Apply(s0, a), a.i)
    ensures OnTrack(s0, a, Apply(s0, a))
  {
    hide Unread, Unmoved;
  }

  lemma BeginsOnTrack(s0: State, a: Action)
    requires Inv(s0) && Enabled(s0, a) && !a.Step?
    ensures |Apply(s0, a).handles| == |s0.handles| && OnTrack(s0, a, Apply(s0, a))
  {
    hide BlocksOk, ObjectsOk;
    BeginsUnmoved(s0, a);
    hide HandlesOk, ReadsOk, Unread, Unmoved, Enabled, Apply, OnTrack;
    if a.New? || a.NewPtr? || a.CopyNew? || a.MoveNew? {
      NewOnTrack(s0, a);
    } else if a.CopyAssign? || a.MoveAssign? {
      AssignOnTrack(s0, a);
    } else {
      ReleaseOnTrack(s0, a);
    }
  }

  lemma OwnStepOnTrack(s0: State, a: Action, s: State)
    requires Enabled(s0, a) && !a.Step? && |s.handles| == |s0.handles| && OnTrack(s0, a, s)
    requires ReadsOk(s) && Enabled(s, Step(a.i))
    ensures |Advance(s, a.i).handles| == |s.handles| && OnTrack(s0, a, Advance(s, a.i))
  {
    StaysUnmoved(s, Step(a.i), a.i);
    BlocksStay(s, Step(a.i));
    var j := s.handles[a.i].ReadsFrom();
    assert j != Some(a.i) && (j.Some? ==> s.handles[j.value].pc.Idle?);
    hide ReadsOk, Unread, Unmoved, OnTrack, Advance, Enabled;
    if s.handles[a.i].pc.Next? {
      OwnNextOnTrack(s0, a, s);
    } else {
      OwnAtomicOnTrack(s0, a, s);
    }
  }

  lemma OwnNextOnTrack(s0: State, a: Action, s: State)
    requires Enabled(s0, a) && !a.Step? && |s.handles| == |s0.handles| && OnTrack(s0, a, s)
    requires Enabled(s, Step(a.i)) && s.handles[a.i].pc.Next? && s.handles[a.i].ReadsFrom() != Some(a.i)
    requires s.handles[a.i].ReadsFrom().Some? ==> s.handles[s.handles[a.i].ReadsFrom().value].pc.Idle?
    requires |Advance(s, a.i).handles| == |s.handles| && Unmoved(Advance(s, a.i), a.i)
    ensures OnTrack(s0, a, Advance(s, a.i))
  {
    hide Wrap, Unread, Unmoved;
  }

  lemma OwnAtomicOnTrack(s0: State, a: Action, s: State)
    requires Enabled(s0, a) && !a.Step? && |s.handles| == |s0.handles| && OnTrack(s0, a, s)
    requires Enabled(s, Step(a.i)) && !s.handles[a.i].pc.Next? && s.handles[a.i].ReadsFrom() != Some(a.i)
    requires |Advance(s, a.i).handles| == |s.handles| && Unmoved(Advance(s, a.i), a.i)
    ensures OnTrack(s0, a, Advance(s, a.i))
  {
    var h, b := AdvanceIsTouch(s, a.i);
    hide Wrap, Unread, Unmoved, Advance;
  }

  lemma OtherStepOnTrack(s0: State, a: Action, s: State, b: Action)
    requires Enabled(s0, a) && !a.Step? && |s.handles| == |s0.handles| && OnTrack(s0, a, s)
    requires ReadsOk(s) && Enabled(s, b) && b.i != a.i && Spares(b, a.i)
    ensures |Apply(s, b).handles| == |s.handles| && OnTrack(s0, a, Apply(s, b))
  {
    OthersLeave(s, b, a.i);
    BlocksStay(s, b);
    var h := s.handles[a.i];
    if h.ReadsFrom().Some? {
      ReadStays(s, b, a.i, h.ReadsFrom().value);
    }
    hide Apply, Enabled, Unmoved, ReadsOk;
  }

  lemma {:induction false} RunOnTrack(s0: State, a: Action, s: State, rest: seq<Action>)
    requires Enabled(s0, a) && !a.Step? && |s.handles| == |s0.handles| && OnTrack(s0, a, s)
    requires Inv(s) && Legal(s, rest) && AllSpare(rest, a.i)
    ensures |Exec(s, rest).handles| == |s0.handles| && OnTrack(s0, a, Exec(s, rest))
    decreases rest
  {
    if rest != [] {
      var b := rest[0];
      assert ReadsOk(s) && Spares(b, a.i) && (b.i == a.i ==> b.Step?);
      hide Inv, ReadsOk, OnTrack, Enabled, Spares, Advance;
      StepKeepsInv(s, b);
      if b.i == a.i {
        OwnStepOnTrack(s0, a, s);
      } else {
        OtherStepOnTrack(s0, a, s, b);
      }
      hide Apply;
      RunOnTrack(s0, a, Apply(s, b), rest[1..]);
    }
  }

  // ------------------------------------------------------------------------ the source

  /** The source is as it was; a move empties it when it takes its fields. */
  ghost predicate SourceOnTrack(s0: State, a: Action, s: State)
    requires Enabled(s0, a) && !a.Step? && |s.handles| == |s0.handles|
  {
    match a
    case CopyNew(_, j) => s.handles[j] == s0.handles[j] && Unmoved(s, j)
    case CopyAssign(i, j) => i != j ==> s.handles[j] == s0.handles[j] && Unmoved(s, j)
    case MoveNew(_, j) => s.handles[j] == Handle(Idle, None, None) && Unmoved(s, j)
    case MoveAssign(i, j) =>
      i != j ==>
        if s.handles[i].MovesFrom() == Some(j) then s.handles[j] == s0.handles[j]
        else s.handles[j] == Handle(Idle, None, None) && Unmoved(s, j)
    case _ => true
  }

  lemma SourceBegins(s0: State, a: Action)
    requires Inv(s0) && Enabled(s0, a) && !a.Step?
    ensures |Apply(s0, a).handles| == |s0.handles| && SourceOnTrack(s0, a, Apply(s0, a))
  {
    if Source(a).Some? {
      assert HandleOk(s0.handles[Source(a).value], s0.blocks);
    }
    hide HandlesOk, BlocksOk, ObjectsOk;
  }

  lemma SourceOwnStep(s0: State, a: Action, s: State)
    requires Enabled(s0, a) && !a.Step? && |s.handles| == |s0.handles|
    requires SourceOnTrack(s0, a, s) && OnTrack(s0, a, s)
    requires ReadsOk(s) && Enabled(s, Step(a.i))
    ensures |Advance(s, a.i).handles| == |s.handles| && SourceOnTrack(s0, a, Advance(s, a.i))
  {
    MovesAfterStep(s, a.i, a.i);
    if Source(a).Some? && Source(a).value != a.i {
      var j := Source(a).value;
      if s.handles[a.i].MovesFrom() != Some(j) {
        StepLeaves(s, a.i, j);
        StaysUnmoved(s, Step(a.i), j);
      } else if s.handles[a.i].pc.Next? {
        MoveCompletes(s, a.i, j);
      } else {
        MoveWaits(s, a.i, j);
      }
    }
    hide Advance, Enabled, Unmoved, ReadsOk, OnTrack;
  }

  lemma MoveCompletes(s: State, i: nat, j: nat)
    requires ReadsOk(s) && Enabled(s, Step(i)) && s.handles[i].pc.Next? && s.handles[i].MovesFrom() == Some(j)
    ensures |Advance(s, i).handles| == |s.handles| && j < |s.handles|
    ensures Advance(s, i).handles[i].MovesFrom() == None
    ensures Advance(s, i).handles[j] == Handle(Idle, None, None) && Unmoved(Advance(s, i), j)
  {
    assert s.handles[j].pc.Idle? && i != j;
    forall m | 0 <= m < |s.handles| && m != i ensures s.handles[m].MovesFrom() != Some(j) {
      assert s.handles[m].ReadsFrom() != Some(j);
    }
    hide ReadsOk, Unread, Wrap;
  }

  lemma MoveWaits(s: State, i: nat, j: nat)
    requires ReadsOk(s) && Enabled(s, Step(i)) && !s.handles[i].pc.Next? && s.handles[i].MovesFrom() == Some(j)
    ensures |Advance(s, i).handles| == |s.handles| && j < |s.handles|
    ensures Advance(s, i).handles[i].MovesFrom() == Some(j) && Advance(s, i).handles[j] == s.handles[j]
  {
    assert i != j;
    var h, b := AdvanceIsTouch(s, i);
    hide ReadsOk, Unread, Wrap, Advance;
  }

  lemma SourceOtherStep(s0: State, a: Action, s: State, b: Action)
    requires Enabled(s0, a) && !a.Step? && |s.handles| == |s0.handles| && SourceOnTrack(s0, a, s)
    requires OnTrack(s0, a, s) && ReadsOk(s) && Enabled(s, b) && b.i != a.i && Spares(b, a.i)
    requires Source(a).Some? ==> Spares(b, Source(a).value)
    ensures |Apply(s, b).handles| == |s.handles| && SourceOnTrack(s0, a, Apply(s, b))
  {
    OthersLeave(s, b, a.i);
    if Source(a).Some? && Source(a).value != a.i {
      var j := Source(a).value;
      if s.handles[a.i].MovesFrom() == Some(j) {
        ReadStays(s, b, a.i, j);
      } else {
        RestingIsSpared(s, b, j);
        OthersLeave(s, b, j);
      }
    }
    hide Apply, Enabled, Unmoved, ReadsOk, OnTrack;
  }

  /** No step of its own is pending on a handle at rest. */
  lemma RestingIsSpared(s: State, b: Action, j: nat)
    requires Enabled(s, b) && j < |s.handles| && s.handles[j].pc.Idle? && Spares(b, j)
    ensures b.i != j
  {
  }

  lemma {:induction false} SourceRun(s0: State, a: Action, s: State, rest: seq<Action>)
    requires Enabled(s0, a) && !a.Step? && |s.handles| == |s0.handles|
    requires SourceOnTrack(s0, a, s) && OnTrack(s0, a, s) && Source(a).Some? && s0.handles[Source(a).value].pc.Idle?
    requires Inv(s) && Legal(s, rest) && AllSpare(rest, a.i) && AllSpare(rest, Source(a).value)
    ensures |Exec(s, rest).handles| == |s0.handles| && SourceOnTrack(s0, a, Exec(s, rest))
    decreases rest
  {
    if rest != [] {
      var b := rest[0];
      assert ReadsOk(s) && Spares(b, a.i) && Spares(b, Source(a).value) && (b.i == a.i ==> b.Step?);
      hide Inv, ReadsOk, OnTrack, SourceOnTrack, Enabled, Spares, Advance;
      StepKeepsInv(s, b);
      if b.i == a.i {
        OwnStepOnTrack(s0, a, s);
        SourceOwnStep(s0, a, s);
      } else {
        OtherStepOnTrack(s0, a, s, b);
        SourceOtherStep(s0, a, s, b);
      }
      hide Apply;
      SourceRun(s0, a, Apply(s, b), rest[1..]);
    }
  }

  // ----------------------------------------------------------------------- the promises

  /**
   * From any reachable state and with any steps of other handles in between: when an
   * operation's steps are over its handle holds what the operation says, and a source that
   * is itself left alone is as it was, or empty if it was moved from.
   */
  lemma {:induction false} OperationResult(n: nat, before: seq<Action>, a: Action, rest: seq<Action>)
    requires n < WORD && Legal(Init(n), before) && Enabled(Exec(Init(n), before), a) && !a.Step?
    requires Legal(Apply(Exec(Init(n), before), a), rest) && AllSpare(rest, a.i)
    ensures var s0 := Exec(Init(n), before);
            var s := Exec(Apply(s0, a), rest);
            && |s.handles| == |s0.handles|
            && (AtRest(s.handles[a.i]) ==>
                  && Result(s0, a, s)
                  && (Source(a).Some? && AllSpare(rest, Source(a).value) ==> SourceResult(s0, a, s)))
  {
    var s0 := Exec(Init(n), before);
    Reached(n, before);
    BeginsOnTrack(s0, a);
    SourceBegins(s0, a);
    StepKeepsInv(s0, a);
    hide Inv, Legal, Exec, Apply;
    var s1 := Apply(s0, a);
    RunOnTrack(s0, a, s1, rest);
    if Source(a).Some? && AllSpare(rest, Source(a).value) {
      SourceRun(s0, a, s1, rest);
    }
  }

  /** How many more steps an operation can take at most, by where it is. */
  function StepsLeft(pc: Pc): nat {
    match pc
    case FetchSub(_) => 5
    case Delete(_) => 4
    case Free(_) => 3
    case Next(_) => 2
    case AddRef(_) => 1
    case _ => 0
  }

  /** No operation ever waits for another: its next step is always possible, and brings it nearer its end. */
  lemma OperationProceeds(s: State, i: nat)
    requires Inv(s) && i < |s.handles| && !AtRest(s.handles[i])
    ensures Enabled(s, Step(i))
    ensures |Advance(s, i).handles| == |s.handles|
    ensures StepsLeft(Advance(s, i).handles[i].pc) < StepsLeft(s.handles[i].pc)
  {
    assert HandleOk(s.handles[i], s.blocks);
    hide BlocksOk, ObjectsOk, Wrap;
  }
}

/** Reference counting: what every interleaving of operations on the handles keeps. */
module SharedPtrProofs {
  import opened Options
  import opened Words
  import opened Tally
  import opened SharedPtr

  /** Handles that hold a counted reference to block c, including one about to give it up. */
  function OwnsW(c: nat): Handle -> int {
    (h: Handle) => if h.cb == Some(c) && (h.pc.Idle? || h.pc.FetchSub?) then 1 else 0
  }

  function DeleteW(c: nat): Handle -> int {
    (h: Handle) => if h.cb == Some(c) && h.pc.Delete? then 1 else 0
  }

  function FreeW(c: nat): Handle -> int {
    (h: Handle) => if h.cb == Some(c) && h.pc.Free? then 1 else 0
  }

  /** A handle's pointers agree with each other and with its position. */
  ghost predicate HandleOk(h: Handle, blocks: seq<Block>) {
    && (h.cb.Some? && !h.pc.Next? ==> h.cb.value < |blocks|)
    && (h.pc.Dead? ==> h.cb == None)
    && (h.pc.AddRef? || h.pc.FetchSub? || h.pc.Delete? || h.pc.Free? ==> h.cb.Some?)
    && ((h.pc.Idle? || h.pc.FetchSub? || h.pc.AddRef?) && h.cb.Some? ==> h.obj == blocks[h.cb.value].adopted)
    && (h.pc.Idle? && h.cb == None ==> h.obj == None)
  }

  ghost predicate HandlesOk(s: State) {
    forall i :: 0 <= i < |s.handles| ==> HandleOk(s.handles[i], s.blocks)
  }

  /** Whoever reads from a handle finds it at rest, and a handle being moved from has one reader. */
  ghost predicate ReadsOk(s: State) {
    && (forall i :: 0 <= i < |s.handles| && s.handles[i].ReadsFrom().Some? ==>
          var j := s.handles[i].ReadsFrom().value;
          j < |s.handles| && j != i && s.handles[j].pc.Idle?
          && (s.handles[i].pc.AddRef? ==> s.handles[j].cb == s.handles[i].cb))
    && (forall i, k :: 0 <= i < |s.handles| && 0 <= k < |s.handles| && i != k && s.handles[i].MovesFrom().Some? ==>
          s.handles[k].ReadsFrom() != s.handles[i].MovesFrom())
  }

  /** The block's word counts its owners; the last one out deletes once and frees once. */
  ghost predicate BlockCounts(b: Block, owners: int, deleters: int, freers: int) {
    && b.count == owners
    && deleters >= 0 && freers >= 0 && deleters + freers <= 1
    && (deleters + freers == 1 ==> owners == 0)
    && (b.freed <==> owners == 0 && deleters + freers == 0)
    && (if b.freed || freers == 1 then b.obj == None && b.runs == (if b.adopted.Some? then 1 else 0)
        else b.obj == b.adopted && b.runs == 0)
  }

  ghost predicate BlockOk(s: State, c: nat)
    requires c < |s.blocks|
  {
    BlockCounts(s.blocks[c], Sum(s.handles, OwnsW(c)), Sum(s.handles, DeleteW(c)), Sum(s.handles, FreeW(c)))
  }

  ghost predicate BlocksOk(s: State) {
    forall c: nat :: c < |s.blocks| ==> BlockOk(s, c)
  }

  /** No raw pointer is adopted by two blocks, or by a block and a reset in progress. */
  ghost predicate ObjectsOk(s: State) {
    && (forall c :: 0 <= c < |s.blocks| && s.blocks[c].adopted.Some? ==> s.blocks[c].adopted.value < s.objects)
    && (forall c, d :: 0 <= c < d < |s.blocks| && s.blocks[c].adopted.Some? ==>
          s.blocks[c].adopted != s.blocks[d].adopted)
    && (forall i :: 0 <= i < |s.handles| && s.handles[i].Claims().Some? ==>
          s.handles[i].Claims().value < s.objects
          && forall c :: 0 <= c < |s.blocks| ==> s.blocks[c].adopted != s.handles[i].Claims())
    && (forall i, k :: 0 <= i < k < |s.handles| && s.handles[i].Claims().Some? ==>
          s.handles[i].Claims() != s.handles[k].Claims())
  }

  ghost predicate Inv(s: State) {
    && |s.handles| < WORD
    && HandlesOk(s) && ReadsOk(s) && BlocksOk(s) && ObjectsOk(s)
    && !s.fault
  }

  lemma InitInv(n: nat)
    requires n < WORD
    ensures Inv(Init(n))
  {
  }

  // ----------------------------------------------------------------- sums of one step

  lemma PutSums(s: State, i: nat, h: Handle, c: nat)
    requires i < |s.handles|
    ensures Sum(Put(s, i, h).handles, OwnsW(c)) == Sum(s.handles, OwnsW(c)) - OwnsW(c)(s.handles[i]) + OwnsW(c)(h)
    ensures Sum(Put(s, i, h).handles, DeleteW(c)) ==
            Sum(s.handles, DeleteW(c)) - DeleteW(c)(s.handles[i]) + DeleteW(c)(h)
    ensures Sum(Put(s, i, h).handles, FreeW(c)) == Sum(s.handles, FreeW(c)) - FreeW(c)(s.handles[i]) + FreeW(c)(h)
  {
    SumUpdate(s.handles, i, h, OwnsW(c));
    SumUpdate(s.handles, i, h, DeleteW(c));
    SumUpdate(s.handles, i, h, FreeW(c));
  }

  lemma {:induction false} SumZero(s: seq<Handle>, w: Handle -> int)
    requires forall h :: h in s ==> w(h) == 0
    ensures Sum(s, w) == 0
    decreases |s|
  {
    if s != [] {
      SumZero(s[..|s| - 1], w);
    }
  }

  /** Replacing a handle by one with the same weights keeps every block's account. */
  lemma PutKeepsBlocks(s: State, i: nat, h: Handle)
    requires BlocksOk(s) && i < |s.handles|
    requires forall c :: OwnsW(c)(h) == OwnsW(c)(s.handles[i]) && DeleteW(c)(h) == DeleteW(c)(s.handles[i])
                         && FreeW(c)(h) == FreeW(c)(s.handles[i])
    ensures BlocksOk(Put(s, i, h))
  {
    var s' := Put(s, i, h);
    forall c: nat | c < |s'.blocks| ensures BlockOk(s', c) {
      PutSums(s, i, h, c);
      assert BlockOk(s, c);
    }
  }

  lemma MoveKeepsBlocks(s: State, i: nat, j: nat)
    requires BlocksOk(s) && i < |s.handles| && j < |s.handles| && i != j
    requires s.handles[j].pc.Idle? && (s.handles[i].pc.Dead? || s.handles[i].pc.Next?)
    requires s.handles[i].pc.Dead? ==> s.handles[i].cb == None
    ensures BlocksOk(Put(Put(s, i, s.handles[j]), j, Handle(Idle, None, None)))
  {
    var s1 := Put(s, i, s.handles[j]);
    var s2 := Put(s1, j, Handle(Idle, None, None));
    forall c: nat | c < |s2.blocks| ensures BlockOk(s2, c) {
      PutSums(s, i, s.handles[j], c);
      PutSums(s1, j, Handle(Idle, None, None), c);
      assert BlockOk(s, c);
    }
  }

  lemma AdoptKeepsBlocks(s: State, i: nat, p: Option<nat>)
    requires BlocksOk(s) && HandlesOk(s) && i < |s.handles| && (s.handles[i].pc.Dead? || s.handles[i].pc.Next?)
    ensures BlocksOk(Adopt(s, i, p))
  {
    var n := |s.blocks|;
    var h := Handle(Idle, p, Some(n));
    var s' := Adopt(s, i, p);
    forall c: nat | c <= n ensures BlockOk(s', c) {
      PutSums(s, i, h, c);
      assert HandleOk(s.handles[i], s.blocks);
      if c < n {
        assert BlockOk(s, c);
      } else {
        assert forall k :: 0 <= k < |s.handles| ==> HandleOk(s.handles[k], s.blocks);
        SumZero(s.handles, OwnsW(c));
        SumZero(s.handles, DeleteW(c));
        SumZero(s.handles, FreeW(c));
      }
    }
  }

  /** A step on block c that keeps c's account, by a handle that has to do with no other block. */
  lemma TouchKeepsBlocks(s: State, i: nat, h: Handle, c: nat, b: Block)
    requires BlocksOk(s) && i < |s.handles| && c < |s.blocks| && s.handles[i].cb == Some(c) && h.cb == Some(c)
    requires BlockCounts(b, Sum(s.handles, OwnsW(c)) - OwnsW(c)(s.handles[i]) + OwnsW(c)(h),
                         Sum(s.handles, DeleteW(c)) - DeleteW(c)(s.handles[i]) + DeleteW(c)(h),
                         Sum(s.handles, FreeW(c)) - FreeW(c)(s.handles[i]) + FreeW(c)(h))
    ensures BlocksOk(Touch(Put(s, i, h), c, b))
  {
    var s' := Touch(Put(s, i, h), c, b);
    forall d: nat | d < |s'.blocks| ensures BlockOk(s', d) {
      PutSums(s, i, h, d);
      assert BlockOk(s, d);
    }
  }

  lemma WeightsNonNegative(s: State, c: nat)
    ensures Sum(s.handles, OwnsW(c)) >= 0 && Sum(s.handles, DeleteW(c)) >= 0 && Sum(s.handles, FreeW(c)) >= 0
    ensures Sum(s.handles, OwnsW(c)) <= |s.handles|
  {
    SumNonNegative(s.handles, OwnsW(c));
    SumNonNegative(s.handles, DeleteW(c));
    SumNonNegative(s.handles, FreeW(c));
    SumAtMost(s.handles, OwnsW(c), 1);
  }

  /** What is known of the block an atomic step is about to touch. */
  lemma AtBlock(s: State, i: nat, c: nat)
    requires Inv(s) && i < |s.handles| && s.handles[i].cb == Some(c) && !s.handles[i].pc.Next?
    ensures c < |s.blocks| && BlockOk(s, c)
    ensures Sum(s.handles, OwnsW(c)) >= OwnsW(c)(s.handles[i])
    ensures Sum(s.handles, DeleteW(c)) >= DeleteW(c)(s.handles[i])
    ensures Sum(s.handles, FreeW(c)) >= FreeW(c)(s.handles[i])
    ensures Sum(s.handles, OwnsW(c)) <= |s.handles| < WORD
  {
    assert HandleOk(s.handles[i], s.blocks);
    WeightsNonNegative(s, c);
    SumAtLeast(s.handles, i, OwnsW(c));
    SumAtLeast(s.handles, i, DeleteW(c));
    SumAtLeast(s.handles, i, FreeW(c));
  }

  lemma AddRefKeepsBlocks(s: State, i: nat)
    requires Inv(s) && Enabled(s, Step(i)) && s.handles[i].pc.AddRef?
    ensures BlocksOk(Advance(s, i)) && !Advance(s, i).fault
  {
    var h := s.handles[i];
    var c, j := h.cb.value, h.pc.src;
    AtBlock(s, i, c);
    assert s.handles[j].cb == h.cb && s.handles[j].pc.Idle?;
    AtBlock(s, j, c);
    OwnersFewer(s, i, c);
    hide HandlesOk, ReadsOk, ObjectsOk;
    TouchKeepsBlocks(s, i, h.(pc := Idle), c, s.blocks[c].(count := Wrap(s.blocks[c].count + 1)));
  }

  lemma FetchSubKeepsBlocks(s: State, i: nat)
    requires Inv(s) && Enabled(s, Step(i)) && s.handles[i].pc.FetchSub?
    ensures BlocksOk(Advance(s, i)) && !Advance(s, i).fault
  {
    var h := s.handles[i];
    var c, cont := h.cb.value, h.pc.cont;
    AtBlock(s, i, c);
    hide HandlesOk, ReadsOk, ObjectsOk;
    var b := s.blocks[c];
    TouchKeepsBlocks(s, i, h.(pc := if b.count == 1 then Delete(cont) else Next(cont)), c,
                     b.(count := Wrap(b.count - 1)));
  }

  lemma DeleteKeepsBlocks(s: State, i: nat)
    requires Inv(s) && Enabled(s, Step(i)) && s.handles[i].pc.Delete?
    ensures BlocksOk(Advance(s, i)) && !Advance(s, i).fault
  {
    var h := s.handles[i];
    var c := h.cb.value;
    AtBlock(s, i, c);
    hide HandlesOk, ReadsOk, ObjectsOk;
    var b := s.blocks[c];
    TouchKeepsBlocks(s, i, h.(pc := Free(h.pc.cont)), c,
                     b.(obj := None, runs := b.runs + if b.obj.Some? then 1 else 0));
  }

  lemma FreeKeepsBlocks(s: State, i: nat)
    requires Inv(s) && Enabled(s, Step(i)) && s.handles[i].pc.Free?
    ensures BlocksOk(Advance(s, i)) && !Advance(s, i).fault
  {
    var h := s.handles[i];
    AtBlock(s, i, h.cb.value);
    hide HandlesOk, ReadsOk, ObjectsOk;
    TouchKeepsBlocks(s, i, h.(pc := Next(h.pc.cont)), h.cb.value, s.blocks[h.cb.value].(freed := true));
  }

  /** A handle that does not own leaves room for one more: the 64-bit count cannot wrap. */
  lemma OwnersFewer(s: State, i: nat, c: nat)
    requires i < |s.handles| && OwnsW(c)(s.handles[i]) == 0
    ensures Sum(s.handles, OwnsW(c)) < |s.handles|
  {
    var h := Handle(Idle, None, Some(c));
    SumUpdate(s.handles, i, h, OwnsW(c));
    SumAtMost(s.handles[i := h], OwnsW(c), 1);
  }

  // ------------------------------------------------------ pointers and who reads whom

  lemma PutKeepsHandles(s: State, i: nat, h: Handle)
    requires HandlesOk(s) && i < |s.handles| && HandleOk(h, s.blocks)
    ensures HandlesOk(Put(s, i, h))
  {
  }

  lemma TouchKeepsHandles(s: State, i: nat, h: Handle, c: nat, b: Block)
    requires HandlesOk(s) && i < |s.handles| && HandleOk(h, s.blocks)
    requires c < |s.blocks| && b.adopted == s.blocks[c].adopted
    ensures HandlesOk(Touch(Put(s, i, h), c, b))
  {
  }

  lemma AdoptKeepsHandles(s: State, i: nat, p: Option<nat>)
    requires HandlesOk(s) && i < |s.handles|
    ensures HandlesOk(Adopt(s, i, p))
  {
  }

  /** Nobody reads from a handle that is not at rest. */
  lemma BusyIsUnread(s: State, i: nat)
    requires ReadsOk(s) && i < |s.handles| && !s.handles[i].pc.Idle?
    ensures Unread(s, i)
  {
  }

  /** A handle nobody reads may take any value that reads from nobody. */
  lemma QuietKeepsReads(s: State, i: nat, h: Handle)
    requires ReadsOk(s) && i < |s.handles| && Unread(s, i) && h.ReadsFrom() == None && h.MovesFrom() == None
    ensures ReadsOk(Put(s, i, h))
  {
  }

  /** An operation in progress goes on reading from the same handle in the same way. */
  lemma ContinuesKeepsReads(s: State, i: nat, h: Handle)
    requires ReadsOk(s) && i < |s.handles| && Unread(s, i) && s.handles[i].ReadsFrom().Some?
    requires h.ReadsFrom() == s.handles[i].ReadsFrom()
    requires h.MovesFrom() == None || h.MovesFrom() == s.handles[i].MovesFrom()
    requires h.pc.AddRef? ==> h.pc.src < |s.handles| && s.handles[h.pc.src].cb == h.cb
    ensures ReadsOk(Put(s, i, h))
  {
  }

  /** A new operation starts reading from handle j, alone if it will move from it. */
  lemma StartsKeepsReads(s: State, i: nat, h: Handle, j: nat)
    requires ReadsOk(s) && i < |s.handles| && Unread(s, i) && j != i && Readable(s, j) && h.ReadsFrom() == Some(j)
    requires h.MovesFrom() == None || (h.MovesFrom() == Some(j) && Unread(s, j))
    requires h.pc.AddRef? ==> s.handles[j].cb == h.cb
    ensures ReadsOk(Put(s, i, h))
  {
  }

  lemma MoveKeepsReads(s: State, i: nat, j: nat)
    requires ReadsOk(s) && i < |s.handles| && j < |s.handles| && i != j && Unread(s, i)
    requires s.handles[j].pc.Idle? && s.handles[i].ReadsFrom() == s.handles[i].MovesFrom()
    requires forall k :: 0 <= k < |s.handles| && k != i ==> s.handles[k].ReadsFrom() != Some(j)
    ensures ReadsOk(Put(Put(s, i, s.handles[j]), j, Handle(Idle, None, None)))
  {
  }

  lemma PutKeepsObjects(s: State, i: nat, h: Handle)
    requires ObjectsOk(s) && i < |s.handles| && (h.Claims() == None || h.Claims() == s.handles[i].Claims())
    ensures ObjectsOk(Put(s, i, h))
  {
  }

  lemma TouchKeepsObjects(s: State, i: nat, h: Handle, c: nat, b: Block)
    requires ObjectsOk(s) && i < |s.handles| && c < |s.blocks| && b.adopted == s.blocks[c].adopted
    requires h.Claims() == None || h.Claims() == s.handles[i].Claims()
    ensures ObjectsOk(Touch(Put(s, i, h), c, b))
  {
  }

  /** A pointer nobody else claims is adopted, whether fresh or claimed by this handle. */
  lemma AdoptKeepsObjects(s: State, i: nat, p: Option<nat>)
    requires ObjectsOk(s) && i < |s.handles|
    requires p.Some? ==> p.value < s.objects
    requires p.Some? ==> forall c :: 0 <= c < |s.blocks| ==> s.blocks[c].adopted != p
    requires p.Some? ==> forall k :: 0 <= k < |s.handles| && k != i ==> s.handles[k].Claims() != p
    ensures ObjectsOk(Adopt(s, i, p))
  {
  }

  lemma FreshKeeps(s: State, isNull: bool)
    ensures BlocksOk(s) ==> BlocksOk(Fresh(s, isNull).0)
    ensures ObjectsOk(s) ==> ObjectsOk(Fresh(s, isNull).0)
  {
    var s' := Fresh(s, isNull).0;
    assert s'.blocks == s.blocks && s'.handles == s.handles;
    if BlocksOk(s) {
      forall c: nat | c < |s'.blocks| ensures BlockOk(s', c) {
        assert BlockOk(s, c);
      }
    }
  }

  /** A handle at rest may start claiming a brand-new pointer. */
  lemma ClaimKeepsObjects(s: State, i: nat, h: Handle, isNull: bool)
    requires ObjectsOk(s) && i < |s.handles| && h.Claims() == Fresh(s, isNull).1
    ensures ObjectsOk(Put(Fresh(s, isNull).0, i, h))
  {
  }

  /** The parts of Inv that one step has to keep, block accounts aside. */
  ghost predicate PointersOk(s: State) {
    HandlesOk(s) && ReadsOk(s) && ObjectsOk(s)
  }

  lemma AdvanceKeepsPointers(s: State, i: nat)
    requires PointersOk(s) && Enabled(s, Step(i))
    ensures PointersOk(Advance(s, i))
  {
    assert HandleOk(s.handles[i], s.blocks);
    BusyIsUnread(s, i);
    hide PointersOk, Unread;
    if s.handles[i].pc.Next? {
      NextKeepsPointers(s, i);
    } else {
      AtomicKeepsPointers(s, i);
    }
  }

  /** An atomic step changes the position of its handle and one block. */
  lemma AdvanceIsTouch(s: State, i: nat) returns (h: Handle, b: Block)
    requires Enabled(s, Step(i)) && !s.handles[i].pc.Next?
    ensures var was := s.handles[i];
            && was.cb.Some? && h.cb == was.cb && h.obj == was.obj && h.cb.value < |s.blocks|
            && b.adopted == s.blocks[h.cb.value].adopted
            && (was.pc.AddRef? ==> h.pc.Idle?)
            && (!was.pc.AddRef? ==> h.pc.Continuation() == was.pc.Continuation() && h.pc.Continuation().Some?)
            && (h.pc.FetchSub? ==> was.pc.FetchSub?)
            && Advance(s, i) == Touch(Put(s, i, h), h.cb.value, b)
  {
    hide Touch, Put, Unread, Wrap;
    h, b := s.handles[i], s.blocks[s.handles[i].cb.value];
    match h.pc {
      case AddRef(_) => h, b := h.(pc := Idle), b.(count := Wrap(b.count + 1));
      case FetchSub(cont) =>
        h, b := h.(pc := if b.count == 1 then Delete(cont) else Next(cont)), b.(count := Wrap(b.count - 1));
      case Delete(cont) =>
        h, b := h.(pc := Free(cont)), b.(obj := None, runs := b.runs + if b.obj.Some? then 1 else 0);
      case Free(cont) => h, b := h.(pc := Next(cont)), b.(freed := true);
    }
  }

  lemma AtomicKeepsPointers(s: State, i: nat)
    requires PointersOk(s) && Enabled(s, Step(i)) && Unread(s, i) && !s.handles[i].pc.Next?
    ensures PointersOk(Advance(s, i))
  {
    assert HandleOk(s.handles[i], s.blocks);
    hide PointersOk, Unread, Touch, Put, Advance, Enabled;
    var h, b := AdvanceIsTouch(s, i);
    TouchStep(s, i, h, b);
  }

  /** An atomic step goes from one position of an operation to the next. */
  lemma TouchStep(s: State, i: nat, h: Handle, b: Block)
    requires PointersOk(s) && i < |s.handles| && Unread(s, i)
    requires h.cb.Some? && h.cb == s.handles[i].cb && h.cb.value < |s.blocks|
    requires HandleOk(h, s.blocks) && b.adopted == s.blocks[h.cb.value].adopted && !h.pc.AddRef?
    requires h.pc.Continuation() == None || h.pc.Continuation() == s.handles[i].pc.Continuation()
    ensures PointersOk(Touch(Put(s, i, h), h.cb.value, b))
  {
    TouchKeepsHandles(s, i, h, h.cb.value, b);
    TouchKeepsObjects(s, i, h, h.cb.value, b);
    if h.ReadsFrom() == None {
      QuietKeepsReads(s, i, h);
    } else {
      ContinuesKeepsReads(s, i, h);
    }
  }

  lemma NextKeepsPointers(s: State, i: nat)
    requires PointersOk(s) && Enabled(s, Step(i)) && s.handles[i].pc.Next? && Unread(s, i)
    ensures PointersOk(Advance(s, i))
  {
    match s.handles[i].pc.cont {
      case ThenCopy(j) => CopyKeepsPointers(s, i, j);
      case ThenMove(j) =>
        assert HandleOk(s.handles[j], s.blocks);
        PutKeepsHandles(s, i, s.handles[j]);
        PutKeepsHandles(Put(s, i, s.handles[j]), j, Handle(Idle, None, None));
        MoveKeepsReads(s, i, j);
        PutKeepsObjects(s, i, s.handles[j]);
        PutKeepsObjects(Put(s, i, s.handles[j]), j, Handle(Idle, None, None));
      case ThenReset => RestKeepsPointers(s, i, Handle(Idle, None, None));
      case ThenEnd => RestKeepsPointers(s, i, Handle(Dead, None, None));
      case ThenAdopt(p) =>
        if p.Some? {
          AdoptKeepsHandles(s, i, p);
          QuietKeepsReads(s, i, Handle(Idle, p, Some(|s.blocks|)));
          AdoptKeepsObjects(s, i, p);
        } else {
          RestKeepsPointers(s, i, Handle(Idle, None, None));
        }
    }
  }

  lemma CopyKeepsPointers(s: State, i: nat, j: nat)
    requires PointersOk(s) && i < |s.handles| && s.handles[i].pc == Next(ThenCopy(j)) && Unread(s, i)
    requires j < |s.handles|
    ensures PointersOk(Put(s, i, CopyFields(s.handles[j], j)))
  {
    assert HandleOk(s.handles[j], s.blocks);
    assert s.handles[i].ReadsFrom() == Some(j);
    PutKeepsHandles(s, i, CopyFields(s.handles[j], j));
    PutKeepsObjects(s, i, CopyFields(s.handles[j], j));
    if s.handles[j].cb.Some? {
      ContinuesKeepsReads(s, i, CopyFields(s.handles[j], j));
    } else {
      QuietKeepsReads(s, i, CopyFields(s.handles[j], j));
    }
  }

  lemma RestKeepsPointers(s: State, i: nat, h: Handle)
    requires PointersOk(s) && i < |s.handles| && Unread(s, i)
    requires HandleOk(h, s.blocks) && h.ReadsFrom() == None && h.MovesFrom() == None
    requires h.Claims() == None
    ensures PointersOk(Put(s, i, h))
  {
  }

  lemma StepKeepsPointers(s: State, a: Action)
    requires PointersOk(s) && Enabled(s, a)
    ensures PointersOk(Apply(s, a)) && |Apply(s, a).handles| == |s.handles|
  {
    var i, h := a.i, s.handles[a.i];
    assert HandleOk(h, s.blocks);
    if h.pc.Dead? {
      BusyIsUnread(s, i);
    }
    hide PointersOk, Unread, Unmoved, HandleOk, Advance;
    match a {
      case New(_) => NewKeepsPointers(s, i);
      case NewPtr(_, isNull) => NewPtrKeepsPointers(s, i, isNull);
      case CopyNew(_, j) => StartCopyKeepsPointers(s, i, j);
      case MoveNew(_, j) => MoveNewKeepsPointers(s, i, j);
      case CopyAssign(_, j) =>
        if i != j {
          AssignKeepsPointers(s, i, j, ThenCopy(j));
        }
      case MoveAssign(_, j) =>
        if i != j {
          UnreadIsReadable(s, j);
          AssignKeepsPointers(s, i, j, ThenMove(j));
        }
      case Reset(_) => GiveUpKeepsPointers(s, i, ThenReset);
      case ResetPtr(_, isNull) => ResetPtrKeepsPointers(s, i, isNull);
      case Destroy(_) => GiveUpKeepsPointers(s, i, ThenEnd);
      case Step(_) => AdvanceKeepsPointers(s, i);
    }
  }

  lemma NewKeepsPointers(s: State, i: nat)
    requires PointersOk(s) && i < |s.handles| && Unread(s, i)
    ensures PointersOk(Put(s, i, Handle(Idle, None, None)))
  {
    hide PointersOk, Unread;
    RestKeepsPointers(s, i, Handle(Idle, None, None));
  }

  lemma GiveUpKeepsPointers(s: State, i: nat, cont: Cont)
    requires PointersOk(s) && Mine(s, i) && (cont.ThenReset? || cont.ThenEnd?)
    ensures PointersOk(Put(s, i, Release(s.handles[i], cont)))
  {
    assert HandleOk(s.handles[i], s.blocks);
    hide PointersOk, Unread;
    RestKeepsPointers(s, i, Release(s.handles[i], cont));
  }

  lemma UnreadIsReadable(s: State, j: nat)
    requires Mine(s, j)
    ensures Readable(s, j)
  {
  }

  lemma NewPtrKeepsPointers(s: State, i: nat, isNull: bool)
    requires PointersOk(s) && i < |s.handles| && Unread(s, i)
    ensures PointersOk(Adopt(Fresh(s, isNull).0, i, Fresh(s, isNull).1))
  {
    var (s', p) := Fresh(s, isNull);
    FreshKeeps(s, isNull);
    AdoptKeepsHandles(s', i, p);
    QuietKeepsReads(s', i, Handle(Idle, p, Some(|s.blocks|)));
    AdoptKeepsObjects(s', i, p);
  }

  lemma ResetPtrKeepsPointers(s: State, i: nat, isNull: bool)
    requires PointersOk(s) && Mine(s, i)
    ensures PointersOk(Put(Fresh(s, isNull).0, i, Release(s.handles[i], ThenAdopt(Fresh(s, isNull).1))))
  {
    var (s', p) := Fresh(s, isNull);
    var h := Release(s.handles[i], ThenAdopt(p));
    assert HandleOk(s.handles[i], s.blocks);
    PutKeepsHandles(s', i, h);
    QuietKeepsReads(s', i, h);
    ClaimKeepsObjects(s, i, h, isNull);
  }

  lemma MoveNewKeepsPointers(s: State, i: nat, j: nat)
    requires PointersOk(s) && i < |s.handles| && s.handles[i].pc.Dead? && Unread(s, i) && Mine(s, j)
    ensures PointersOk(Put(Put(s, i, s.handles[j]), j, Handle(Idle, None, None)))
  {
    assert HandleOk(s.handles[j], s.blocks);
    PutKeepsHandles(s, i, s.handles[j]);
    PutKeepsHandles(Put(s, i, s.handles[j]), j, Handle(Idle, None, None));
    MoveKeepsReads(s, i, j);
    PutKeepsObjects(s, i, s.handles[j]);
    PutKeepsObjects(Put(s, i, s.handles[j]), j, Handle(Idle, None, None));
  }

  lemma StartCopyKeepsPointers(s: State, i: nat, j: nat)
    requires PointersOk(s) && i < |s.handles| && s.handles[i].pc.Dead? && Unread(s, i) && Readable(s, j)
    ensures PointersOk(Put(s, i, CopyFields(s.handles[j], j)))
  {
    assert HandleOk(s.handles[j], s.blocks);
    var h := CopyFields(s.handles[j], j);
    PutKeepsHandles(s, i, h);
    PutKeepsObjects(s, i, h);
    if s.handles[j].cb.Some? {
      StartsKeepsReads(s, i, h, j);
    } else {
      QuietKeepsReads(s, i, h);
    }
  }

  lemma AssignKeepsPointers(s: State, i: nat, j: nat, cont: Cont)
    requires PointersOk(s) && Mine(s, i) && Readable(s, j) && i != j
    requires cont == ThenCopy(j) || (cont == ThenMove(j) && Unread(s, j))
    ensures PointersOk(Put(s, i, Release(s.handles[i], cont)))
  {
    assert HandleOk(s.handles[i], s.blocks);
    var h := Release(s.handles[i], cont);
    PutKeepsHandles(s, i, h);
    PutKeepsObjects(s, i, h);
    StartsKeepsReads(s, i, h, j);
  }

  // -------------------------------------------------------------- every other step

  lemma StepKeepsBlocks(s: State, a: Action)
    requires Inv(s) && Enabled(s, a)
    ensures BlocksOk(Apply(s, a)) && !Apply(s, a).fault
  {
    var h := s.handles[a.i];
    assert HandleOk(h, s.blocks);
    hide BlocksOk, ReadsOk, ObjectsOk, HandlesOk, Unread, Unmoved;
    match a {
      case New(i) => StartKeepsBlocks(s, i, Handle(Idle, None, None));
      case NewPtr(i, isNull) =>
        assert HandlesOk(s);
        NewPtrKeepsBlocks(s, i, isNull);
      case CopyNew(i, j) => StartKeepsBlocks(s, i, CopyFields(s.handles[j], j));
      case MoveNew(i, j) => MoveKeepsBlocks(s, i, j);
      case CopyAssign(i, j) => ReleaseKeepsBlocks(s, i, ThenCopy(j));
      case MoveAssign(i, j) => ReleaseKeepsBlocks(s, i, ThenMove(j));
      case Reset(i) => ReleaseKeepsBlocks(s, i, ThenReset);
      case ResetPtr(i, isNull) => ResetPtrKeepsBlocks(s, i, isNull);
      case Destroy(i) => ReleaseKeepsBlocks(s, i, ThenEnd);
      case Step(i) => AdvanceKeepsBlocks(s, i);
    }
  }

  /** A new handle owns nothing until it has added its reference. */
  lemma StartKeepsBlocks(s: State, i: nat, h: Handle)
    requires BlocksOk(s) && i < |s.handles| && s.handles[i].pc.Dead? && s.handles[i].cb == None
    requires h.pc.AddRef? || h.cb == None
    ensures BlocksOk(Put(s, i, h))
  {
    hide BlocksOk;
    PutKeepsBlocks(s, i, h);
  }

  lemma ReleaseKeepsBlocks(s: State, i: nat, cont: Cont)
    requires BlocksOk(s) && i < |s.handles| && s.handles[i].pc.Idle?
    ensures BlocksOk(Put(s, i, Release(s.handles[i], cont)))
  {
    hide BlocksOk;
    PutKeepsBlocks(s, i, Release(s.handles[i], cont));
  }

  lemma NewPtrKeepsBlocks(s: State, i: nat, isNull: bool)
    requires BlocksOk(s) && HandlesOk(s) && i < |s.handles| && s.handles[i].pc.Dead?
    ensures BlocksOk(Adopt(Fresh(s, isNull).0, i, Fresh(s, isNull).1))
  {
    FreshKeeps(s, isNull);
    AdoptKeepsBlocks(Fresh(s, isNull).0, i, Fresh(s, isNull).1);
  }

  lemma ResetPtrKeepsBlocks(s: State, i: nat, isNull: bool)
    requires BlocksOk(s) && i < |s.handles| && s.handles[i].pc.Idle?
    ensures BlocksOk(Put(Fresh(s, isNull).0, i, Release(s.handles[i], ThenAdopt(Fresh(s, isNull).1))))
  {
    FreshKeeps(s, isNull);
    PutKeepsBlocks(Fresh(s, isNull).0, i, Release(s.handles[i], ThenAdopt(Fresh(s, isNull).1)));
  }

  lemma AdvanceKeepsBlocks(s: State, i: nat)
    requires Inv(s) && Enabled(s, Step(i))
    ensures BlocksOk(Advance(s, i)) && !Advance(s, i).fault
  {
    match s.handles[i].pc {
      case AddRef(_) => AddRefKeepsBlocks(s, i);
      case FetchSub(_) => FetchSubKeepsBlocks(s, i);
      case Delete(_) => DeleteKeepsBlocks(s, i);
      case Free(_) => FreeKeepsBlocks(s, i);
      case Next(ThenCopy(j)) => PutKeepsBlocks(s, i, CopyFields(s.handles[j], j));
      case Next(ThenMove(j)) => MoveKeepsBlocks(s, i, j);
      case Next(ThenReset) => PutKeepsBlocks(s, i, Handle(Idle, None, None));
      case Next(ThenEnd) => PutKeepsBlocks(s, i, Handle(Dead, None, None));
      case Next(ThenAdopt(p)) =>
        if p.Some? {
          AdoptKeepsBlocks(s, i, p);
        } else {
          PutKeepsBlocks(s, i, Handle(Idle, None, None));
        }
    }
  }

  lemma StepKeepsInv(s: State, a: Action)
    requires Inv(s) && Enabled(s, a)
    ensures Inv(Apply(s, a)) && |Apply(s, a).handles| == |s.handles|
  {
    StepKeepsPointers(s, a);
    StepKeepsBlocks(s, a);
    hide Apply, Enabled, BlocksOk, HandlesOk, ReadsOk, ObjectsOk;
  }

  lemma {:induction false} RunKeepsInv(s: State, acts: seq<Action>)
    requires Inv(s) && Legal(s, acts)
    ensures Inv(Exec(s, acts)) && |Exec(s, acts).handles| == |s.handles|
    decreases acts
  {
    if acts != [] {
      StepKeepsInv(s, acts[0]);
      hide Inv, Apply, Enabled;
      RunKeepsInv(Apply(s, acts[0]), acts[1..]);
    }
  }

  // ---------------------------------------------------------------------- promises

  lemma {:induction false} Reached(n: nat, acts: seq<Action>)
    requires n < WORD && Legal(Init(n), acts)
    ensures Inv(Exec(Init(n), acts)) && |Exec(Init(n), acts).handles| == n
  {
    InitInv(n);
    RunKeepsInv(Init(n), acts);
  }

  /** The promises about one control block. */
  ghost predicate BlockPromise(s: State, c: nat)
    requires c < |s.blocks|
  {
    var b := s.blocks[c];
    && b.count == Sum(s.handles, OwnsW(c))
    && (b.freed <==> b.count == 0 && Sum(s.handles, DeleteW(c)) + Sum(s.handles, FreeW(c)) == 0)
    && b.runs <= (if b.adopted.Some? then 1 else 0)
    && (b.count > 0 ==> b.runs == 0 && b.obj == b.adopted)
    && (b.freed ==> b.runs == if b.adopted.Some? then 1 else 0)
  }

  /**
   * Under every interleaving: the stored 64-bit count is the number of handles holding
   * a reference, counting one inside its release; a block is freed exactly when nobody
   * owns it and nobody is finishing it; its deleter has run once if it was freed and
   * never while it is owned; and no step ever touched a freed block.
   */
  lemma {:induction false} CountsAreExact(n: nat, acts: seq<Action>)
    requires n < WORD && Legal(Init(n), acts)
    ensures var s := Exec(Init(n), acts);
            && !s.fault
            && (forall c: nat :: c < |s.blocks| ==> BlockPromise(s, c))
            && (forall c, d :: 0 <= c < d < |s.blocks| && s.blocks[c].adopted.Some? ==>
                  s.blocks[c].adopted != s.blocks[d].adopted)
  {
    Reached(n, acts);
    hide Legal, Exec, Sum;
    var s := Exec(Init(n), acts);
    forall c: nat | c < |s.blocks| ensures BlockPromise(s, c) {
      assert BlockOk(s, c);
    }
  }

  /** A handle at rest points at an object whose deleter has not run, in a block that is not freed. */
  lemma {:induction false} DereferenceIsSafe(n: nat, acts: seq<Action>, i: nat)
    requires n < WORD && Legal(Init(n), acts) && i < |Exec(Init(n), acts).handles|
    requires Exec(Init(n), acts).handles[i].pc.Idle? && Exec(Init(n), acts).handles[i].obj.Some?
    ensures var s := Exec(Init(n), acts);
            var h := s.handles[i];
            && h.cb.Some? && h.cb.value < |s.blocks|
            && var b := s.blocks[h.cb.value];
            !b.freed && b.runs == 0 && b.obj == h.obj && b.count > 0
  {
    Reached(n, acts);
    hide Legal, Exec, Sum;
    var s := Exec(Init(n), acts);
    assert HandleOk(s.handles[i], s.blocks);
    AtBlock(s, i, s.handles[i].cb.value);
  }

  /** Nothing leaks: when every handle is gone, every block is freed and every object deleted exactly once. */
  lemma {:induction false} NothingLeaks(n: nat, acts: seq<Action>)
    requires n < WORD && Legal(Init(n), acts)
    requires forall i :: 0 <= i < |Exec(Init(n), acts).handles| ==> Exec(Init(n), acts).handles[i].pc.Dead?
    ensures forall b :: b in Exec(Init(n), acts).blocks ==> b.freed && b.runs == if b.adopted.Some? then 1 else 0
  {
    Reached(n, acts);
    hide Legal, Exec;
    var s := Exec(Init(n), acts);
    forall b | b in s.blocks ensures b.freed && b.runs == if b.adopted.Some? then 1 else 0 {
      var c: nat :| c < |s.blocks| && s.blocks[c] == b;
      assert BlockOk(s, c);
      SumZero(s.handles, OwnsW(c));
      SumZero(s.handles, DeleteW(c));
      SumZero(s.handles, FreeW(c));
    }
  }

  /** A step that runs a deleter belongs to a handle that is past its own fetch_sub. */
  lemma DeleterRunsAfterFetchSub(s: State, a: Action, c: nat)
    requires Inv(s) && Enabled(s, a) && c < |s.blocks|
    ensures c < |Apply(s, a).blocks|
    ensures Apply(s, a).blocks[c].runs != s.blocks[c].runs ==>
              a.Step? && s.handles[a.i].pc.Delete? && s.handles[a.i].cb == Some(c)
  {
  }

  /** A handle gets to run the deleter only by a fetch_sub that found the count at 1. */
  lemma OnlyTheLastOwnerDeletes(s: State, a: Action, i: nat)
    requires Inv(s) && Enabled(s, a) && i < |s.handles| && !s.handles[i].pc.Delete?
    ensures |Apply(s, a).handles| == |s.handles|
    ensures Apply(s, a).handles[i].pc.Delete? ==>
              && a == Step(i) && s.handles[i].pc.FetchSub?
              && s.handles[i].cb.Some? && s.handles[i].cb.value < |s.blocks|
              && s.blocks[s.handles[i].cb.value].count == 1
  {
    assert HandleOk(s.handles[a.i], s.blocks);
    hide BlocksOk, ObjectsOk, HandlesOk;
    if a.Step? {
      AdvanceToDelete(s, a.i, i);
    } else {
      hide ReadsOk, Advance;
    }
  }

  lemma AdvanceToDelete(s: State, i: nat, k: nat)
    requires ReadsOk(s) && Enabled(s, Step(i)) && k < |s.handles| && !s.handles[k].pc.Delete?
    ensures |Advance(s, i).handles| == |s.handles|
    ensures Advance(s, i).handles[k].pc.Delete? ==>
              k == i && s.handles[i].pc.FetchSub? && s.blocks[s.handles[i].cb.value].count == 1
  {
  }
}

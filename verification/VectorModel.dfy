/**
 * What a Vector holds after each operation, as values: contents, capacity and how many
 * elements its regrowths have carried over.
 */
module VectorModel {
  import opened Options

  /** Raw storage, or an element; a moved-from element is still there to be destroyed. */
  datatype Slot<T> = Raw | Live(value: T) | MovedFrom

  /**
   * How a regrowth carries elements over: by copying or by moving (whichever
   * move_if_noexcept picks), and the element whose constructor throws, if one does.
   */
  datatype Transfer = Transfer(copying: bool, throwAt: Option<nat>) {
    predicate Throws(n: nat) {
      throwAt.Some? && throwAt.value < n
    }
  }

  /** `moves` counts elements constructed by regrowths, `wasted` those that were rolled back. */
  datatype State<T> = State(contents: seq<Slot<T>>, cap: nat, pushes: nat, moves: nat, wasted: nat)

  datatype Outcome<T> = Outcome(state: State<T>, ok: bool)

  datatype Op<T> =
    | Push(x: T, t: Transfer)
    | Pop
    | Write(pos: nat, x: T)
    | Shrink(t: Transfer)

  function Initial<T>(n: nat, zero: T): State<T> {
    State(seq(n, _ => Live(zero)), if n > 1 then n else 1, 0, 0, 0)
  }

  /** The old elements after a regrowth that threw at k: intact if copied, hollow below k if moved. */
  function AfterThrow<T>(c: seq<Slot<T>>, copying: bool, k: nat): (r: seq<Slot<T>>)
    requires k <= |c|
    ensures |r| == |c|
    ensures forall i :: 0 <= i < |c| ==> r[i] == if copying || i >= k then c[i] else MovedFrom
  {
    if copying then c else seq(k, _ => MovedFrom) + c[k..]
  }

  function Grow<T>(s: State<T>, newCap: nat, t: Transfer): Outcome<T> {
    if t.Throws(|s.contents|) then
      var k := t.throwAt.value;
      Outcome(s.(contents := AfterThrow(s.contents, t.copying, k), moves := s.moves + k, wasted := s.wasted + k), false)
    else
      Outcome(s.(cap := newCap, moves := s.moves + |s.contents|), true)
  }

  function MakeRoom<T>(s: State<T>, t: Transfer): Outcome<T> {
    var a := if s.cap == 1 then Grow(s, s.cap * 3, t) else Outcome(s, true);
    if a.ok && |a.state.contents| >= a.state.cap then Grow(a.state, a.state.cap * 3, t) else a
  }

  function Pushed<T>(s: State<T>, x: T, t: Transfer): Outcome<T> {
    var room := MakeRoom(s, t);
    if room.ok then
      Outcome(room.state.(contents := room.state.contents + [Live(x)], pushes := s.pushes + 1), true)
    else
      room
  }

  function Popped<T>(s: State<T>): State<T> {
    if s.contents == [] then s else s.(contents := s.contents[..|s.contents| - 1])
  }

  function Shrunk<T>(s: State<T>, t: Transfer): Outcome<T> {
    if s.cap > |s.contents| then Grow(s, |s.contents|, t) else Outcome(s, true)
  }

  /** What the language demands of a caller: operator[] in range, push_back with room to construct. */
  predicate Legal<T>(s: State<T>, op: Op<T>) {
    match op
    case Push(_, t) => s.cap > 0
    case Write(pos, _) => pos < |s.contents|
    case _ => true
  }

  function Apply<T>(s: State<T>, op: Op<T>): Outcome<T>
    requires Legal(s, op)
  {
    match op
    case Push(x, t) => Pushed(s, x, t)
    case Pop => Outcome(Popped(s), true)
    case Write(pos, x) => Outcome(s.(contents := s.contents[pos := Live(x)]), true)
    case Shrink(t) => Shrunk(s, t)
  }

  predicate LegalRun<T>(s: State<T>, ops: seq<Op<T>>)
    decreases |ops|
  {
    ops == [] || (Legal(s, ops[0]) && LegalRun(Apply(s, ops[0]).state, ops[1..]))
  }

  function Run<T>(s: State<T>, ops: seq<Op<T>>): State<T>
    requires LegalRun(s, ops)
    decreases |ops|
  {
    if ops == [] then s else Run(Apply(s, ops[0]).state, ops[1..])
  }

  predicate WellFormed<T>(s: State<T>) {
    |s.contents| <= s.cap && forall i :: 0 <= i < |s.contents| ==> s.contents[i] != Raw
  }

  // ------------------------------------------------------------------------ capacity

  /** After the two growth tests there is room for one more element exactly when the capacity is not 0. */
  lemma RoomUnlessNoCapacity<T>(s: State<T>, t: Transfer)
    requires WellFormed(s)
    ensures var room := MakeRoom(s, t);
            room.ok ==>
              && (|room.state.contents| < room.state.cap <==> s.cap > 0)
              && room.state.contents == s.contents && room.state.pushes == s.pushes
  {
  }

  /** push_back regrows at capacity 1, whatever the size, and when it is full. */
  predicate Regrows<T>(s: State<T>) {
    s.cap == 1 || |s.contents| == s.cap
  }

  /**
   * What a push does: it fails exactly when it regrows and the regrowth throws. Then the
   * capacity stays and what was carried over is wasted. Otherwise the element comes last,
   * and a regrowth has tripled the capacity and carried over every element.
   */
  lemma PushEffect<T>(s: State<T>, x: T, t: Transfer)
    requires WellFormed(s) && s.cap > 0
    ensures var o := Pushed(s, x, t);
            && (o.ok <==> !(Regrows(s) && t.throwAt.Some? && t.throwAt.value < |s.contents|))
            && (o.ok ==>
                  && o.state.contents == s.contents + [Live(x)]
                  && o.state.cap == (if Regrows(s) then 3 * s.cap else s.cap)
                  && o.state.pushes == s.pushes + 1 && o.state.wasted == s.wasted
                  && o.state.moves == s.moves + if Regrows(s) then |s.contents| else 0)
            && (!o.ok ==>
                  && o.state.cap == s.cap && o.state.pushes == s.pushes
                  && o.state.moves == s.moves + t.throwAt.value && o.state.wasted == s.wasted + t.throwAt.value)
  {
  }

  /** An ok shrink leaves no spare capacity; one that throws leaves the capacity. Contents stay unless moved from. */
  lemma ShrinkEffect<T>(s: State<T>, t: Transfer)
    requires WellFormed(s)
    ensures var o := Shrunk(s, t);
            && (o.ok <==> !(|s.contents| < s.cap && t.throwAt.Some? && t.throwAt.value < |s.contents|))
            && (o.ok ==> o.state.cap == |s.contents| && o.state.contents == s.contents && o.state.wasted == s.wasted)
            && (o.ok ==> o.state.moves == s.moves + if |s.contents| < s.cap then |s.contents| else 0)
            && (!o.ok ==> o.state.cap == s.cap && o.state.wasted == s.wasted + t.throwAt.value)
  {
  }

  /** The constructors: n default elements and room for at least one. */
  lemma InitialEffect<T>(n: nat, zero: T)
    ensures var s := Initial(n, zero);
            && |s.contents| == n && (forall i :: 0 <= i < n ==> s.contents[i] == Live(zero))
            && s.cap == (if n == 0 then 1 else n) && s.pushes == s.moves == s.wasted == 0
  {
  }

  lemma PopEffect<T>(s: State<T>)
    ensures var s' := Popped(s);
            && s'.cap == s.cap && s'.pushes == s.pushes && s'.moves == s.moves && s'.wasted == s.wasted
            && (s.contents == [] ==> s'.contents == [])
            && (s.contents != [] ==> s'.contents + [s.contents[|s.contents| - 1]] == s.contents)
  {
  }

  lemma ApplyKeepsWellFormed<T>(s: State<T>, op: Op<T>)
    requires WellFormed(s) && Legal(s, op)
    ensures WellFormed(Apply(s, op).state)
  {
  }

  /** Capacity 0 is reached only by shrinking an empty vector, and no operation leaves it. */
  lemma CapacityZero<T>(s: State<T>, op: Op<T>)
    requires WellFormed(s) && Legal(s, op)
    ensures Apply(s, op).state.cap == 0 <==> s.cap == 0 || (op.Shrink? && s.contents == [])
  {
  }

  lemma NoCapacityIsForever<T>(s: State<T>, t: Transfer)
    requires WellFormed(s) && s.cap == 0
    ensures MakeRoom(s, t) == Outcome(s, true)
  {
  }

  /** Pushes and pops never run out of room, however their regrowths end. */
  lemma {:induction false} PushPopAlwaysLegal<T>(s: State<T>, ops: seq<Op<T>>)
    requires WellFormed(s) && s.cap > 0
    requires forall i :: 0 <= i < |ops| ==> ops[i].Push? || ops[i].Pop?
    ensures LegalRun(s, ops)
    decreases |ops|
  {
    if ops != [] {
      hide Apply, WellFormed;
      ApplyKeepsWellFormed(s, ops[0]);
      CapacityZero(s, ops[0]);
      PushPopAlwaysLegal(Apply(s, ops[0]).state, ops[1..]);
    }
  }

  // ---------------------------------------------------------------------- refinement

  /** The plain sequence each operation works on; one that threw leaves it alone. */
  function SpecApply<T>(q: seq<T>, op: Op<T>, ok: bool): seq<T> {
    if !ok then q else
    match op
    case Push(x, _) => q + [x]
    case Pop => if q == [] then q else q[..|q| - 1]
    case Write(pos, x) => if pos < |q| then q[pos := x] else q
    case Shrink(_) => q
  }

  function SpecRun<T>(q: seq<T>, s: State<T>, ops: seq<Op<T>>): seq<T>
    requires LegalRun(s, ops)
    decreases |ops|
  {
    if ops == [] then q
    else
      var next := Apply(s, ops[0]);
      SpecRun(SpecApply(q, ops[0], next.ok), next.state, ops[1..])
  }

  /** Element for element the sequence, except that some elements may have been moved from. */
  predicate Refines<T(==)>(c: seq<Slot<T>>, q: seq<T>) {
    |c| == |q| && forall i :: 0 <= i < |c| ==> c[i] == MovedFrom || c[i] == Live(q[i])
  }

  predicate Intact<T>(c: seq<Slot<T>>) {
    forall i :: 0 <= i < |c| ==> c[i].Live?
  }

  /** No regrowth moves from an element and then throws: it copies, or its moves cannot throw. */
  predicate Careful<T>(ops: seq<Op<T>>) {
    forall i :: 0 <= i < |ops| ==>
      && (ops[i].Push? ==> ops[i].t.copying || ops[i].t.throwAt.None?)
      && (ops[i].Shrink? ==> ops[i].t.copying || ops[i].t.throwAt.None?)
  }

  lemma ApplyRefines<T>(s: State<T>, q: seq<T>, op: Op<T>)
    requires WellFormed(s) && Legal(s, op) && Refines(s.contents, q)
    ensures Refines(Apply(s, op).state.contents, SpecApply(q, op, Apply(s, op).ok))
    ensures Intact(s.contents) && Careful([op]) ==> Intact(Apply(s, op).state.contents)
  {
    assert Careful([op]) ==> (op.Push? ==> op.t.copying || op.t.throwAt.None?)
                             && (op.Shrink? ==> op.t.copying || op.t.throwAt.None?) by {
      assert [op][0] == op;
    }
  }

  /**
   * Over every run the vector holds what the plain sequence holds; if no regrowth throws
   * half-way through moving, it holds exactly that, whatever else throws.
   */
  lemma {:induction false} RunRefines<T>(s: State<T>, q: seq<T>, ops: seq<Op<T>>)
    requires WellFormed(s) && Refines(s.contents, q) && LegalRun(s, ops)
    ensures WellFormed(Run(s, ops))
    ensures Refines(Run(s, ops).contents, SpecRun(q, s, ops))
    ensures Intact(s.contents) && Careful(ops) ==> Intact(Run(s, ops).contents)
    decreases |ops|
  {
    if ops != [] {
      hide Apply, SpecApply, Refines, WellFormed, Legal, Intact;
      ApplyKeepsWellFormed(s, ops[0]);
      ApplyRefines(s, q, ops[0]);
      var next := Apply(s, ops[0]);
      RunRefines(next.state, SpecApply(q, ops[0], next.ok), ops[1..]);
    }
  }

  /** A regrowth that throws leaves the original contents in place exactly when it copies, or throws at once. */
  lemma RollbackIff<T>(s: State<T>, newCap: nat, t: Transfer)
    requires WellFormed(s) && Intact(s.contents) && t.Throws(|s.contents|)
    ensures !Grow(s, newCap, t).ok && Grow(s, newCap, t).state.cap == s.cap
    ensures Grow(s, newCap, t).state.contents == s.contents <==> t.copying || t.throwAt.value == 0
  {
    var c := Grow(s, newCap, t).state.contents;
    if !t.copying && t.throwAt.value > 0 {
      assert c[0] == MovedFrom;
    }
  }

  // -------------------------------------------------------------------------- cost

  /** Three times the pushed elements pay for every element a completed regrowth carried over. */
  predicate Paid<T>(s: State<T>, n: nat) {
    && |s.contents| <= s.pushes + n
    && s.wasted <= s.moves
    && 2 * (s.moves - s.wasted) + 1 <= s.cap
    && (s.moves == s.wasted || s.cap <= 3 * (s.pushes + n))
  }

  lemma ApplyKeepsPaid<T>(s: State<T>, op: Op<T>, n: nat)
    requires WellFormed(s) && Paid(s, n) && Legal(s, op) && !op.Shrink?
    ensures Paid(Apply(s, op).state, n)
  {
  }

  lemma {:induction false} RunKeepsPaid<T>(s: State<T>, ops: seq<Op<T>>, n: nat)
    requires WellFormed(s) && Paid(s, n) && LegalRun(s, ops)
    requires forall i :: 0 <= i < |ops| ==> !ops[i].Shrink?
    ensures Paid(Run(s, ops), n)
    decreases |ops|
  {
    if ops != [] {
      hide Apply, WellFormed, Legal, Paid;
      ApplyKeepsWellFormed(s, ops[0]);
      ApplyKeepsPaid(s, ops[0], n);
      RunKeepsPaid(Apply(s, ops[0]).state, ops[1..], n);
    }
  }

  /** Amortised cost: without shrinking, twice the elements carried over is at most 3 * (pushes + initial size). */
  lemma MovesAreAmortised<T>(n: nat, zero: T, ops: seq<Op<T>>)
    requires LegalRun(Initial(n, zero), ops)
    requires forall i :: 0 <= i < |ops| ==> !ops[i].Shrink?
    ensures var s := Run(Initial(n, zero), ops); 2 * (s.moves - s.wasted) <= 3 * (s.pushes + n)
  {
    RunKeepsPaid(Initial(n, zero), ops, n);
  }

  /** Nothing is wasted unless a regrowth throws after its first element. */
  lemma {:induction false} NothingWasted<T>(s: State<T>, ops: seq<Op<T>>)
    requires LegalRun(s, ops)
    requires forall i :: 0 <= i < |ops| ==>
               (ops[i].Push? ==> !ops[i].t.throwAt.Some?) && (ops[i].Shrink? ==> !ops[i].t.throwAt.Some?)
    ensures Run(s, ops).wasted == s.wasted
    decreases |ops|
  {
    if ops != [] {
      NothingWasted(Apply(s, ops[0]).state, ops[1..]);
    }
  }
}

/**
 * The vector itself: slots updated in place, with a ghost ledger that names every element
 * ever constructed in its storage and records which have been destroyed.
 */
module Vector {
  import opened Options
  import opened VectorModel

  ghost function AsSet(ids: seq<nat>): set<nat> {
    set id | id in ids
  }

  ghost function FromTo(lo: nat, hi: nat): (r: seq<nat>)
    requires lo <= hi
    ensures |r| == hi - lo
    ensures forall i :: 0 <= i < |r| ==> r[i] == lo + i
  {
    seq(hi - lo, i => lo + i)
  }

  ghost predicate Distinct(ids: seq<nat>) {
    forall i, j :: 0 <= i < j < |ids| ==> ids[i] != ids[j]
  }

  /** Elements `ids` are alive, `dead` have been destroyed, and together they are all that were born. */
  ghost predicate Ledger(ids: seq<nat>, dead: set<nat>, born: nat) {
    && Distinct(ids)
    && AsSet(ids) !! dead
    && forall id: nat :: id in AsSet(ids) || id in dead <==> id < born
  }

  /** Slots of a raw buffer: the first n hold elements, the rest is raw storage. */
  ghost predicate Filled<T>(a: seq<Slot<T>>, n: nat) {
    n <= |a|
    && (forall i :: 0 <= i < n ==> a[i] != Raw)
    && (forall i :: n <= i < |a| ==> a[i] == Raw)
  }

  /** Identities not used before are distinct, and none of them is alive or destroyed. */
  lemma NewIds(ids: seq<nat>, dead: set<nat>, born: nat, upto: nat)
    requires Ledger(ids, dead, born) && born <= upto
    ensures Distinct(ids) && AsSet(ids) !! dead
    ensures Distinct(FromTo(born, upto)) && AsSet(FromTo(born, upto)) !! dead
    ensures AsSet(FromTo(born, upto)) !! AsSet(ids)
    ensures forall id: nat :: id in AsSet(FromTo(born, upto)) <==> born <= id < upto
  {
    var next := FromTo(born, upto);
    forall id: nat ensures id in AsSet(next) <==> born <= id < upto {
      if born <= id < upto {
        assert next[id - born] == id;
      }
    }
    forall id: nat | id in AsSet(next) ensures id !in AsSet(ids) + dead {
    }
  }

  /** The new elements are destroyed again: the old ones are still the ones alive. */
  lemma LedgerRolledBack(ids: seq<nat>, dead: set<nat>, born: nat, upto: nat)
    requires Ledger(ids, dead, born) && born <= upto
    ensures Ledger(ids, dead + AsSet(FromTo(born, upto)), upto)
  {
    NewIds(ids, dead, born, upto);
    forall id: nat ensures id in AsSet(ids) || id in dead + AsSet(FromTo(born, upto)) <==> id < upto {
      assert id in AsSet(ids) || id in dead <==> id < born;
      assert id in AsSet(FromTo(born, upto)) <==> born <= id < upto;
    }
  }

  /** The old elements are destroyed: the new ones take their place. */
  lemma LedgerSwapped(ids: seq<nat>, dead: set<nat>, born: nat, upto: nat)
    requires Ledger(ids, dead, born) && born <= upto
    ensures Ledger(FromTo(born, upto), dead + AsSet(ids), upto)
  {
    NewIds(ids, dead, born, upto);
    forall id: nat ensures id in AsSet(FromTo(born, upto)) || id in dead + AsSet(ids) <==> id < upto {
      assert id in AsSet(ids) || id in dead <==> id < born;
      assert id in AsSet(FromTo(born, upto)) <==> born <= id < upto;
    }
  }

  lemma LedgerPushed(ids: seq<nat>, dead: set<nat>, born: nat)
    requires Ledger(ids, dead, born)
    ensures Ledger(ids + [born], dead, born + 1)
  {
    assert born !in AsSet(ids) + dead;
    assert AsSet(ids + [born]) == AsSet(ids) + {born};
  }

  lemma LedgerPopped(ids: seq<nat>, dead: set<nat>, born: nat)
    requires Ledger(ids, dead, born) && ids != []
    ensures ids[|ids| - 1] !in dead
    ensures Ledger(ids[..|ids| - 1], dead + {ids[|ids| - 1]}, born)
  {
    var last := |ids| - 1;
    assert ids[last] in AsSet(ids);
    assert ids == ids[..last] + [ids[last]];
    assert AsSet(ids) == AsSet(ids[..last]) + {ids[last]};
    forall id: nat ensures id in AsSet(ids[..last]) || id in dead + {ids[last]} <==> id < born {
      assert id in AsSet(ids) || id in dead <==> id < born;
    }
  }

  class Vector<T> {
    var size: nat
    var cap: nat
    var arr: array<Slot<T>>

    ghost var ids: seq<nat>
    ghost const start: nat
    ghost var born: nat
    ghost var dead: set<nat>
    ghost var pushes: nat
    ghost var moves: nat
    ghost var wasted: nat

    ghost predicate Valid()
      reads this, arr
    {
      && cap == arr.Length
      && Filled(arr[..], size)
      && |ids| == size
      && Ledger(ids, dead, born)
      && born == start + pushes + moves
    }

    ghost function View(): State<T>
      reads this, arr
      requires Valid()
    {
      State(arr[..size], cap, pushes, moves, wasted)
    }

    /** A vector of n default elements; the default constructor is the case n == 0. */
    constructor (n: nat, zero: T)
      ensures Valid() && fresh(arr)
      ensures View() == Initial(n, zero) && start == n
    {
      size := n;
      cap := if n > 1 then n else 1;
      arr := new Slot<T>[if n > 1 then n else 1](_ => Raw);
      start, ids, born, dead := n, FromTo(0, n), n, {};
      pushes, moves, wasted := 0, 0, 0;
      new;
      var i := 0;
      while i < n
        invariant i <= n && size == n == start && cap == (if n > 1 then n else 1) == arr.Length && fresh(arr)
        invariant ids == FromTo(0, n) && born == n && dead == {}
        invariant pushes == moves == wasted == 0
        invariant forall j :: 0 <= j < arr.Length ==> arr[j] == if j < i then Live(zero) else Raw
      {
        arr[i] := Live(zero);
        i := i + 1;
      }
      assert arr[..size] == Initial(n, zero).contents;
      forall id: nat ensures id in AsSet(ids) <==> id < born {
        if id < born {
          assert ids[id] == id;
        }
      }
    }

    /** destroy_n: every slot below n holds an element, and none of them was destroyed before. */
    method DestroyN(a: array<Slot<T>>, n: nat, ghost which: seq<nat>)
      requires n <= a.Length && |which| == n
      requires forall i :: 0 <= i < n ==> a[i] != Raw
      requires Distinct(which) && AsSet(which) !! dead
      modifies a, this`dead
      ensures forall i :: 0 <= i < a.Length ==> a[i] == if i < n then Raw else old(a[i])
      ensures dead == old(dead) + AsSet(which)
    {
      var i := 0;
      while i < n
        invariant i <= n
        invariant forall j :: 0 <= j < a.Length ==> a[j] == if j < i then Raw else old(a[j])
        invariant dead == old(dead) + AsSet(which[..i])
      {
        assert which[..i + 1] == which[..i] + [which[i]];
        DestroyAt(a, i, which[i]);
        i := i + 1;
      }
      assert which[..n] == which;
    }

    /** Destroying an element twice, or raw storage, is never asked for. */
    method DestroyAt(a: array<Slot<T>>, pos: nat, ghost id: nat)
      requires pos < a.Length && a[pos] != Raw && id !in dead
      modifies a, this`dead
      ensures a[..] == old(a[..])[pos := Raw]
      ensures dead == old(dead) + {id}
    {
      a[pos] := Raw;
      dead := dead + {id};
    }

    /**
     * The loop of a regrowth: construct copies of the elements, or move them, in order;
     * stop early at the element whose constructor throws.
     */
    method CarryOver(newArr: array<Slot<T>>, t: Transfer) returns (n: nat)
      requires size <= newArr.Length && size <= arr.Length && newArr != arr
      requires forall j :: 0 <= j < newArr.Length ==> newArr[j] == Raw
      modifies newArr, arr, this`born, this`moves
      ensures n == if t.Throws(size) then t.throwAt.value else size
      ensures born == old(born) + n && moves == old(moves) + n
      ensures forall j :: 0 <= j < newArr.Length ==> newArr[j] == if j < n then old(arr[j]) else Raw
      ensures forall j :: 0 <= j < arr.Length ==> arr[j] == if j < n && !t.copying then MovedFrom else old(arr[j])
    {
      n := 0;
      while n < size && t.throwAt != Some(n)
        invariant n <= size && (t.throwAt.Some? ==> n <= t.throwAt.value || !t.Throws(size))
        invariant born == old(born) + n && moves == old(moves) + n
        invariant forall j :: 0 <= j < newArr.Length ==> newArr[j] == if j < n then old(arr[j]) else Raw
        invariant forall j :: 0 <= j < arr.Length ==>
                    arr[j] == if j < n && !t.copying then MovedFrom else old(arr[j])
      {
        newArr[n] := arr[n];
        if !t.copying {
          arr[n] := MovedFrom;
        }
        born, moves := born + 1, moves + 1;
        n := n + 1;
      }
    }

    /** Carry every element over to a new buffer of newCap slots, or undo it and report the throw. */
    method GrowCapacity(newCap: nat, t: Transfer) returns (ok: bool)
      requires Valid() && size <= newCap
      modifies this, arr
      ensures Valid() && (arr == old(arr) || fresh(arr))
      ensures Outcome(View(), ok) == Grow(old(View()), newCap, t)
    {
      hide Ledger, AsSet, Distinct;
      ghost var before := View();
      ghost var first := born;
      var newArr := new Slot<T>[newCap](_ => Raw);
      var n := CarryOver(newArr, t);
      NewIds(ids, dead, first, born);
      if n < size {
        LedgerRolledBack(ids, dead, first, born);
        DestroyN(newArr, n, FromTo(first, born));
        wasted := wasted + n;
        assert View().contents == AfterThrow(before.contents, t.copying, n);
        return false;
      }
      LedgerSwapped(ids, dead, first, born);
      DestroyN(arr, size, ids);
      ids := FromTo(first, born);
      arr, cap := newArr, newCap;
      assert View().contents == before.contents;
      return true;
    }

    /** The two growth tests of push_back. */
    method MakeRoom(t: Transfer) returns (ok: bool)
      requires Valid()
      modifies this, arr
      ensures Valid() && (arr == old(arr) || fresh(arr))
      ensures Outcome(View(), ok) == VectorModel.MakeRoom(old(View()), t)
    {
      hide Ledger;
      ok := true;
      if cap == 1 {
        ok := GrowCapacity(cap * 3, t);
      }
      if ok && size >= cap {
        ok := GrowCapacity(cap * 3, t);
      }
    }

    /** push_back and emplace_back: construct the element after the last one. */
    method PushBack(x: T, t: Transfer) returns (ok: bool)
      requires Valid() && cap > 0
      modifies this, arr
      ensures Valid() && (arr == old(arr) || fresh(arr))
      ensures Outcome(View(), ok) == Pushed(old(View()), x, t)
    {
      hide Ledger, VectorModel.MakeRoom;
      RoomUnlessNoCapacity(View(), t);
      ok := MakeRoom(t);
      if ok {
        LedgerPushed(ids, dead, born);
        ghost var room := View();
        arr[size] := Live(x);
        ids, born, pushes := ids + [born], born + 1, pushes + 1;
        size := size + 1;
        assert View().contents == room.contents + [Live(x)];
      }
    }

    method PopBack()
      requires Valid()
      modifies this, arr
      ensures Valid() && arr == old(arr)
      ensures View() == Popped(old(View()))
    {
      if size == 0 {
        return;
      }
      LedgerPopped(ids, dead, born);
      size := size - 1;
      DestroyAt(arr, size, ids[size]);
      ids := ids[..size];
    }

    /** Assignment through operator[]. */
    method Write(pos: nat, x: T)
      requires Valid() && pos < size
      modifies arr
      ensures Valid()
      ensures View() == old(View()).(contents := old(View()).contents[pos := Live(x)])
    {
      arr[pos] := Live(x);
    }

    /** Checked read: an index at or past the size is reported, not read. */
    method At(index: nat) returns (r: Option<Slot<T>>)
      requires Valid()
      ensures r == if index < |View().contents| then Some(View().contents[index]) else None
    {
      if index >= size {
        return None;
      }
      return Some(arr[index]);
    }

    method ShrinkToFit(t: Transfer) returns (ok: bool)
      requires Valid()
      modifies this, arr
      ensures Valid() && (arr == old(arr) || fresh(arr))
      ensures Outcome(View(), ok) == Shrunk(old(View()), t)
    {
      ok := true;
      if cap > size {
        ok := GrowCapacity(size, t);
      }
    }

    /** The destructor: every element ever constructed has then been destroyed, each of them once. */
    method Destroy()
      requires Valid()
      modifies this, arr
      ensures born == old(born) == start + pushes + moves && pushes == old(pushes) && moves == old(moves)
      ensures forall id: nat :: id in dead <==> id < born
      ensures forall i :: 0 <= i < old(arr).Length ==> old(arr)[i] == Raw
    {
      DestroyN(arr, size, ids);
    }
  }

  /**
   * Any legal program on a fresh vector, up to and including its destructor: it
   * constructs one element for each initial one, each push and each regrowth move, and
   * destroys all of them.
   */
  method Lifetime<T>(n: nat, zero: T, ops: seq<Op<T>>) returns (last: seq<Slot<T>>, ghost dead: set<nat>)
    requires LegalRun(Initial(n, zero), ops)
    ensures last == Run(Initial(n, zero), ops).contents
    ensures forall id: nat :: id in dead <==>
              id < n + Run(Initial(n, zero), ops).pushes + Run(Initial(n, zero), ops).moves
  {
    var v := new Vector(n, zero);
    var i := 0;
    while i < |ops|
      invariant i <= |ops| && v.Valid() && v.start == n && fresh(v) && fresh(v.arr)
      invariant LegalRun(v.View(), ops[i..])
      invariant Run(v.View(), ops[i..]) == Run(Initial(n, zero), ops)
    {
      assert ops[i..][0] == ops[i] && ops[i..][1..] == ops[i + 1..];
      match ops[i] {
        case Push(x, t) =>
          var _ := v.PushBack(x, t);
        case Pop =>
          v.PopBack();
        case Write(pos, x) =>
          v.Write(pos, x);
        case Shrink(t) =>
          var _ := v.ShrinkToFit(t);
      }
      i := i + 1;
    }
    last := v.arr[..v.size];
    v.Destroy();
    dead := v.dead;
  }
}

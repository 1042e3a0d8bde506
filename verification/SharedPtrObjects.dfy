/** The control block and the handle as objects, each operation run without interruption. */
module SharedPtrObjects {
  import opened Options
  import opened Words
  import opened SharedPtr

  class ControlBlock {
    var count: nat
    var obj: Option<nat>
    var freed: bool
    ghost var runs: nat

    constructor (p: Option<nat>)
      ensures count == 1 && obj == p && !freed && runs == 0
    {
      count, obj, freed, runs := 1, p, false, 0;
    }

    method AddRef()
      requires !freed && count < WORD - 1
      modifies this`count
      ensures count == old(count) + 1
    {
      count := Wrap(count + 1);
    }

    /** fetch_sub; the last owner runs the deleter on a non-null object and frees the block. */
    method Release()
      requires !freed && 0 < count < WORD
      modifies this
      ensures count == old(count) - 1
      ensures freed <==> old(count) == 1
      ensures !freed ==> obj == old(obj) && runs == old(runs)
      ensures freed ==> obj == None && runs == old(runs) + if old(obj).Some? then 1 else 0
    {
      var before := count;
      count := Wrap(count - 1);
      if before == 1 {
        if obj.Some? {
          runs := runs + 1;
          obj := None;
        }
        freed := true;
      }
    }
  }

  class SharedHandle {
    var obj: Option<nat>
    var cb: ControlBlock?

    /** A handle at rest: it holds one counted reference, or nothing. */
    ghost predicate Valid()
      reads this, cb
    {
      if cb == null then obj == None else !cb.freed && cb.obj == obj && 0 < cb.count < WORD
    }

    constructor ()
      ensures Valid() && obj == None && cb == null
    {
      obj, cb := None, null;
    }

    /** A null pointer gets a control block too. */
    constructor FromPointer(p: Option<nat>)
      ensures Valid() && obj == p && cb != null && fresh(cb) && cb.count == 1
    {
      obj := p;
      cb := new ControlBlock(p);
    }

    constructor Copy(other: SharedHandle)
      requires other.Valid() && (other.cb != null ==> other.cb.count < WORD - 1)
      modifies other.cb
      ensures Valid() && other.Valid() && obj == other.obj && cb == other.cb
      ensures cb != null ==> cb.count == old(other.cb.count) + 1
    {
      obj, cb := other.obj, other.cb;
      new;
      if cb != null {
        cb.AddRef();
      }
    }

    constructor Move(other: SharedHandle)
      requires other.Valid()
      modifies other
      ensures Valid() && obj == old(other.obj) && cb == old(other.cb)
      ensures other.Valid() && other.obj == None && other.cb == null
    {
      obj, cb := other.obj, other.cb;
      new;
      other.obj := None;
      other.cb := null;
    }

    function UseCount(): (n: nat)
      reads this, cb
      requires Valid()
      ensures n == 0 <==> cb == null
      ensures cb != null ==> n == cb.count
    {
      if cb == null then 0 else cb.count
    }

    /** The destructor's body, and reset() without arguments. */
    method Reset()
      requires Valid()
      modifies this, cb
      ensures Valid() && cb == null && obj == None
      ensures old(cb) != null ==> var b := old(cb); b.count == old(cb.count) - 1 && (b.freed <==> old(cb.count) == 1)
    {
      if cb != null {
        cb.Release();
        cb := null;
      }
      obj := None;
    }

    /** reset(pointer, deleter). */
    method ResetPtr(p: Option<nat>)
      requires Valid()
      modifies this, cb
      ensures Valid() && obj == p && (cb == null <==> p == None)
      ensures cb != null ==> fresh(cb) && cb.count == 1
      ensures old(cb) != null ==> var b := old(cb); b.count == old(cb.count) - 1 && (b.freed <==> old(cb.count) == 1)
    {
      if cb != null {
        cb.Release();
      }
      obj := p;
      if obj != None {
        cb := new ControlBlock(obj);
      } else {
        cb := null;
      }
    }

    /** Copy assignment: a shared block keeps its count, two different blocks change theirs by one. */
    method CopyAssign(other: SharedHandle)
      requires Valid() && other.Valid()
      requires this != other && cb != null && cb == other.cb ==> cb.count >= 2
      requires cb != other.cb && other.cb != null ==> other.cb.count < WORD - 1
      modifies this, cb, other.cb
      ensures Valid() && other.Valid()
      ensures obj == old(other.obj) && cb == old(other.cb)
      ensures this != other ==> other.obj == old(other.obj) && other.cb == old(other.cb)
      ensures this == other || old(cb) == cb ==> cb != null ==> cb.count == old(cb.count) && !cb.freed
      ensures old(cb) != old(other.cb) && old(cb) != null ==>
                var b := old(cb); b.count == old(cb.count) - 1 && (b.freed <==> old(cb.count) == 1)
      ensures old(cb) != old(other.cb) && cb != null ==> cb.count == old(other.cb.count) + 1 && !cb.freed
    {
      if this != other {
        if cb != null {
          cb.Release();
        }
        obj := other.obj;
        cb := other.cb;
        if cb != null {
          cb.AddRef();
        }
      }
    }

    /** Move assignment: the source is left empty and its block's count does not change. */
    method MoveAssign(other: SharedHandle)
      requires Valid() && other.Valid()
      requires this != other && cb != null && cb == other.cb ==> cb.count >= 2
      modifies this, other, cb
      ensures Valid() && other.Valid()
      ensures this == other ==> obj == old(obj) && cb == old(cb)
      ensures this != other ==> obj == old(other.obj) && cb == old(other.cb) && other.cb == null && other.obj == None
      ensures this != other && old(cb) != null ==>
                var b := old(cb); b.count == old(cb.count) - 1 && (b.freed <==> old(cb.count) == 1)
    {
      if this != other {
        if cb != null {
          cb.Release();
        }
        obj := other.obj;
        cb := other.cb;
        other.obj := None;
        other.cb := null;
      }
    }
  }
}

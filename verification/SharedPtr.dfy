/**
 * The atomically counted shared pointer as a step machine over any number of handles.
 * Each constructor, assignment, reset and destructor is split at its atomic operations:
 * add_ref, fetch_sub, deleter run, deallocation of the control block, and the plain
 * field updates in between. One thread works on one handle at a time, so the handle
 * carries the position of the operation that is changing it.
 */
module SharedPtr {
  import opened Options
  import opened Words
  import opened Tally

  /** What an operation does once its release of the old control block is over. */
  datatype Cont =
    | ThenCopy(src: nat) | ThenMove(src: nat) | ThenReset | ThenEnd | ThenAdopt(p: Option<nat>)

  datatype Pc =
    | Dead                 // no handle object here
    | Idle                 // a live handle, no operation in progress
    | AddRef(src: nat)     // fields copied from src, about to add_ref
    | FetchSub(cont: Cont) // about to fetch_sub
    | Delete(cont: Cont)   // fetch_sub returned 1, about to run the deleter
    | Free(cont: Cont)     // about to destroy and deallocate the control block
    | Next(cont: Cont)     // release over, fields still hold the old values
  {
    function Continuation(): Option<Cont> {
      match this
      case FetchSub(c) => Some(c)
      case Delete(c) => Some(c)
      case Free(c) => Some(c)
      case Next(c) => Some(c)
      case _ => None
    }
  }

  datatype Handle = Handle(pc: Pc, obj: Option<nat>, cb: Option<nat>) {
    function MovesFrom(): Option<nat> {
      match pc.Continuation()
      case Some(ThenMove(j)) => Some(j)
      case _ => None
    }

    /** The handle this operation reads from, which must not be changed meanwhile. */
    function ReadsFrom(): Option<nat> {
      if pc.AddRef? then Some(pc.src)
      else match pc.Continuation()
        case Some(ThenMove(j)) => Some(j)
        case Some(ThenCopy(j)) => Some(j)
        case _ => None
    }

    /** The object a reset(pointer) in progress is about to adopt. */
    function Claims(): Option<nat> {
      match pc.Continuation()
      case Some(ThenAdopt(p)) => p
      case _ => None
    }
  }

  /** A control block; `adopted` is the object it was made for and `runs` counts deleter runs on it. */
  datatype Block = Block(count: nat, obj: Option<nat>, freed: bool, adopted: Option<nat>, runs: nat)

  /** `objects` numbers raw pointers, so that each is adopted once; `fault` records use after free. */
  datatype State = State(handles: seq<Handle>, blocks: seq<Block>, objects: nat, fault: bool)

  function Init(n: nat): State {
    State(seq(n, _ => Handle(Dead, None, None)), [], 0, false)
  }

  datatype Action =
    | New(i: nat) | NewPtr(i: nat, isNull: bool) | CopyNew(i: nat, j: nat) | MoveNew(i: nat, j: nat)
    | CopyAssign(i: nat, j: nat) | MoveAssign(i: nat, j: nat)
    | Reset(i: nat) | ResetPtr(i: nat, isNull: bool) | Destroy(i: nat)
    | Step(i: nat)

  /** No operation in progress reads from handle j. */
  predicate Unread(s: State, j: nat) {
    forall k :: 0 <= k < |s.handles| ==> s.handles[k].ReadsFrom() != Some(j)
  }

  predicate Unmoved(s: State, j: nat) {
    forall k :: 0 <= k < |s.handles| ==> s.handles[k].MovesFrom() != Some(j)
  }

  /** The caller may change handle i: it is at rest and nobody is reading it. */
  predicate Mine(s: State, i: nat) {
    i < |s.handles| && s.handles[i].pc.Idle? && Unread(s, i)
  }

  /** The caller may read handle j. */
  predicate Readable(s: State, j: nat) {
    j < |s.handles| && s.handles[j].pc.Idle? && Unmoved(s, j)
  }

  predicate Enabled(s: State, a: Action) {
    a.i < |s.handles| &&
    match a
    case New(i) => s.handles[i].pc.Dead?
    case NewPtr(i, _) => s.handles[i].pc.Dead?
    case CopyNew(i, j) => s.handles[i].pc.Dead? && Readable(s, j)
    case MoveNew(i, j) => s.handles[i].pc.Dead? && Mine(s, j)
    case CopyAssign(i, j) => Mine(s, i) && Readable(s, j)
    case MoveAssign(i, j) => Mine(s, i) && Mine(s, j)
    case Reset(i) => Mine(s, i)
    case ResetPtr(i, _) => Mine(s, i)
    case Destroy(i) => Mine(s, i)
    case Step(i) =>
      && !s.handles[i].pc.Dead? && !s.handles[i].pc.Idle?
      && (match s.handles[i].ReadsFrom() case Some(j) => j < |s.handles| case None => true)
      && (s.handles[i].pc.AddRef? || s.handles[i].pc.FetchSub? || s.handles[i].pc.Delete? || s.handles[i].pc.Free? ==>
            s.handles[i].cb.Some? && s.handles[i].cb.value < |s.blocks|)
  }

  /** Begin an operation that first releases what the handle holds. */
  function Release(h: Handle, cont: Cont): Handle {
    h.(pc := if h.cb.Some? then FetchSub(cont) else Next(cont))
  }

  /** Fields copied from the source; add_ref follows unless there is no control block. */
  function CopyFields(src: Handle, j: nat): Handle {
    Handle(if src.cb.Some? then AddRef(j) else Idle, src.obj, src.cb)
  }

  function Put(s: State, i: nat, h: Handle): State
    requires i < |s.handles|
  {
    s.(handles := s.handles[i := h])
  }

  /** Allocate a control block for p and let handle i hold it. */
  function Adopt(s: State, i: nat, p: Option<nat>): State
    requires i < |s.handles|
  {
    Put(s, i, Handle(Idle, p, Some(|s.blocks|))).(blocks := s.blocks + [Block(1, p, false, p, 0)])
  }

  function Touch(s: State, c: nat, b: Block): State
    requires c < |s.blocks|
  {
    s.(blocks := s.blocks[c := b], fault := s.fault || s.blocks[c].freed)
  }

  function Fresh(s: State, isNull: bool): (State, Option<nat>) {
    if isNull then (s, None) else (s.(objects := s.objects + 1), Some(s.objects))
  }

  function Apply(s: State, a: Action): State
    requires Enabled(s, a)
  {
    var h := s.handles[a.i];
    match a
    case New(i) => Put(s, i, Handle(Idle, None, None))
    case NewPtr(i, isNull) => var (s', p) := Fresh(s, isNull); Adopt(s', i, p)
    case CopyNew(i, j) => Put(s, i, CopyFields(s.handles[j], j))
    case MoveNew(i, j) => Put(Put(s, i, s.handles[j]), j, Handle(Idle, None, None))
    case CopyAssign(i, j) => if i == j then s else Put(s, i, Release(h, ThenCopy(j)))
    case MoveAssign(i, j) => if i == j then s else Put(s, i, Release(h, ThenMove(j)))
    case Reset(i) => Put(s, i, Release(h, ThenReset))
    case ResetPtr(i, isNull) => var (s', p) := Fresh(s, isNull); Put(s', i, Release(h, ThenAdopt(p)))
    case Destroy(i) => Put(s, i, Release(h, ThenEnd))
    case Step(i) => Advance(s, i)
  }

  /** The next statement of the operation in progress on handle i. */
  function Advance(s: State, i: nat): State
    requires Enabled(s, Step(i))
  {
    var h := s.handles[i];
    match h.pc
    case AddRef(_) =>
      var c := h.cb.value;
      Touch(Put(s, i, h.(pc := Idle)), c, s.blocks[c].(count := Wrap(s.blocks[c].count + 1)))
    case FetchSub(cont) =>
      var c := h.cb.value;
      Touch(Put(s, i, h.(pc := if s.blocks[c].count == 1 then Delete(cont) else Next(cont))),
            c, s.blocks[c].(count := Wrap(s.blocks[c].count - 1)))
    case Delete(cont) =>
      var c := h.cb.value;
      Touch(Put(s, i, h.(pc := Free(cont))), c,
            s.blocks[c].(obj := None, runs := s.blocks[c].runs + if s.blocks[c].obj.Some? then 1 else 0))
    case Free(cont) =>
      var c := h.cb.value;
      Touch(Put(s, i, h.(pc := Next(cont))), c, s.blocks[c].(freed := true))
    case Next(ThenCopy(j)) => Put(s, i, CopyFields(s.handles[j], j))
    case Next(ThenMove(j)) => Put(Put(s, i, s.handles[j]), j, Handle(Idle, None, None))
    case Next(ThenReset) => Put(s, i, Handle(Idle, None, None))
    case Next(ThenEnd) => Put(s, i, Handle(Dead, None, None))
    case Next(ThenAdopt(p)) => if p.Some? then Adopt(s, i, p) else Put(s, i, Handle(Idle, None, None))
    case Dead => s
    case Idle => s
  }

  predicate Legal(s: State, acts: seq<Action>)
    decreases acts
  {
    acts == [] || (Enabled(s, acts[0]) && Legal(Apply(s, acts[0]), acts[1..]))
  }

  function Exec(s: State, acts: seq<Action>): State
    requires Legal(s, acts)
    decreases acts
  {
    if acts == [] then s else Exec(Apply(s, acts[0]), acts[1..])
  }
}

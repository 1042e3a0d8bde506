/** Whole runs of AddOrder and CancelOrder, starting from an empty book. */
module OrderbookRuns {
  import opened OrderbookModel
  import opened OrderbookProofs

  datatype Op = AddOp(order: Order) | CancelOp(id: nat)

  /** One quantity for each side. */
  datatype Flow = Flow(buy: int, sell: int) {
    function Of(isBuy: bool): int {
      if isBuy then buy else sell
    }

    function Plus(isBuy: bool, q: int): Flow {
      if isBuy then this.(buy := buy + q) else this.(sell := sell + q)
    }
  }

  /** A book with the record of how it came about; `arrival` numbers accepted orders in order of arrival. */
  datatype Session = Session(
    book: Book,
    arrival: map<nat, nat>,
    clock: nat,
    trades: seq<seq<Trade>>,
    accepted: Flow,
    cancelled: Flow)

  const EMPTY: Session := Session(Book([], []), map[], 0, [], Flow(0, 0), Flow(0, 0))

  function QtyOf(s: seq<Order>, id: nat): int {
    var p := FindId(s, id);
    if p < |s| then s[p].qty else 0
  }

  function Step(s: Session, op: Op): Session {
    match op
    case AddOp(o) =>
      var out := Add(s.book, o);
      if IsDupe(s.book, o.id) then s.(trades := s.trades + [[]])
      else
        Session(out.book, s.arrival[o.id := s.clock], s.clock + 1, s.trades + [out.trades],
                if o.qty > 0 then s.accepted.Plus(o.isBuy, o.qty) else s.accepted, s.cancelled)
    case CancelOp(id) =>
      s.(book := Cancel(s.book, id), trades := s.trades + [[]],
         cancelled := s.cancelled.Plus(true, QtyOf(s.book.bids, id)).Plus(false, QtyOf(s.book.asks, id)))
  }

  function Run(ops: seq<Op>): Session {
    if ops == [] then EMPTY else Step(Run(ops[..|ops| - 1]), ops[|ops| - 1])
  }

  /** Every book reachable from the empty one by AddOrder and CancelOrder is in order. */
  lemma {:induction false} ReachableBookOk(ops: seq<Op>)
    ensures BookOk(Run(ops).book)
  {
    if ops != [] {
      var s, op := Run(ops[..|ops| - 1]), ops[|ops| - 1];
      ReachableBookOk(ops[..|ops| - 1]);
      match op {
        case AddOp(o) => AddKeepsBook(s.book, o);
        case CancelOp(id) => CancelKeepsBook(s.book, id);
      }
    }
  }

  // ------------------------------------------------------------------ conservation

  function SumAll(t: seq<seq<Trade>>): int {
    if t == [] then 0 else SumAll(t[..|t| - 1]) + SumSizes(t[|t| - 1])
  }

  lemma SumAllSnoc(t: seq<seq<Trade>>, x: seq<Trade>)
    ensures SumAll(t + [x]) == SumAll(t) + SumSizes(x)
  {
  }

  lemma {:induction false} SumQtyAppend(s: seq<Order>, t: seq<Order>)
    ensures SumQty(s + t) == SumQty(s) + SumQty(t)
    decreases t
  {
    if t == [] {
      assert s + t == s;
    } else {
      assert (s + t)[..|s + t| - 1] == s + t[..|t| - 1];
      SumQtyAppend(s, t[..|t| - 1]);
    }
  }

  lemma SumQtyInsert(s: seq<Order>, p: nat, o: Order)
    requires p <= |s|
    ensures SumQty(InsertAt(s, p, o)) == SumQty(s) + o.qty
  {
    assert s == s[..p] + s[p..];
    SumQtyAppend(s[..p], s[p..]);
    SumQtyAppend(s[..p], [o]);
    SumQtyAppend(s[..p] + [o], s[p..]);
    assert [o][..0] == [];
  }

  lemma SumQtyRemove(s: seq<Order>, p: nat)
    requires p < |s|
    ensures SumQty(RemoveAt(s, p)) == SumQty(s) - s[p].qty
  {
    assert InsertAt(RemoveAt(s, p), p, s[p]) == s;
    SumQtyInsert(RemoveAt(s, p), p, s[p]);
  }

  lemma AddConserves(b: Book, o: Order)
    requires BookOk(b) && !IsDupe(b, o.id)
    ensures var out := Add(b, o);
            && SumQty(out.book.Side(o.isBuy)) ==
               SumQty(b.Side(o.isBuy)) + (if o.qty > 0 then o.qty else 0) - SumSizes(out.trades)
            && SumQty(out.book.Side(!o.isBuy)) == SumQty(b.Side(!o.isBuy)) - SumSizes(out.trades)
  {
    var s := b.Side(!o.isBuy);
    var m := Match(s, o, o.qty);
    MatchConserves(s, o, o.qty);
    MatchShrinks(s, o, o.qty);
    MatchedBookOk(b, o);
    if m.remaining > 0 {
      var same := b.Side(o.isBuy);
      SumQtyInsert(same, InsertPos(same, o.isBuy, o.level), o.(qty := m.remaining));
    }
  }

  lemma CancelConserves(b: Book, id: nat)
    requires BookOk(b)
    ensures SumQty(Cancel(b, id).bids) == SumQty(b.bids) - QtyOf(b.bids, id)
    ensures SumQty(Cancel(b, id).asks) == SumQty(b.asks) - QtyOf(b.asks, id)
  {
    var i, j := FindId(b.bids, id), FindId(b.asks, id);
    if i < |b.bids| {
      SumQtyRemove(b.bids, i);
    } else if j < |b.asks| {
      SumQtyRemove(b.asks, j);
    }
  }

  ghost predicate Conserved(s: Session, isBuy: bool) {
    s.accepted.Of(isBuy) == SumAll(s.trades) + SumQty(s.book.Side(isBuy)) + s.cancelled.Of(isBuy)
  }

  /**
   * Over any run, on each side: accepted quantity is traded quantity plus what rests
   * plus what was cancelled.
   */
  lemma {:induction false} QuantityIsConserved(ops: seq<Op>)
    ensures Conserved(Run(ops), true) && Conserved(Run(ops), false)
  {
    if ops != [] {
      var prefix, op := ops[..|ops| - 1], ops[|ops| - 1];
      QuantityIsConserved(prefix);
      ReachableBookOk(prefix);
      StepConserves(Run(prefix), op);
    }
  }

  lemma StepConserves(s: Session, op: Op)
    requires BookOk(s.book) && Conserved(s, true) && Conserved(s, false)
    ensures Conserved(Step(s, op), true) && Conserved(Step(s, op), false)
  {
    SumAllSnoc(s.trades, []);
    match op {
      case AddOp(o) =>
        if !IsDupe(s.book, o.id) {
          hide Add, IsDupe, BookOk, SumAll, SumQty, SumSizes;
          SumAllSnoc(s.trades, Add(s.book, o).trades);
          AddConserves(s.book, o);
        }
      case CancelOp(id) =>
        hide Cancel, BookOk, SumAll, SumQty, QtyOf;
        CancelConserves(s.book, id);
    }
  }
}

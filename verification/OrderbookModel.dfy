/** The matching engine on values: what one AddOrder, insert_order or CancelOrder computes. */
module OrderbookModel {

  datatype Order = Order(id: nat, level: int, isBuy: bool, qty: int)

  datatype Trade = Trade(bidId: nat, askId: nat, aggressorId: nat, aggressorIsBuy: bool, level: int, size: int)

  /** Both sides keep the best order last. */
  datatype Book = Book(bids: seq<Order>, asks: seq<Order>) {
    /** The side on which an order with this flag rests. */
    function Side(isBuy: bool): seq<Order> {
      if isBuy then bids else asks
    }

    function WithSide(isBuy: bool, s: seq<Order>): Book {
      if isBuy then this.(bids := s) else this.(asks := s)
    }
  }

  predicate CanMatch(buy: Order, sell: Order) {
    buy.level >= sell.level
  }

  predicate Crosses(incoming: Order, resting: Order) {
    if incoming.isBuy then CanMatch(incoming, resting) else CanMatch(resting, incoming)
  }

  function Min(a: int, b: int): int {
    if b < a then b else a
  }

  /** Bid id first, then ask id; the price is the ask's limit. */
  function MakeTrade(incoming: Order, best: Order, size: int): Trade {
    Trade(if incoming.isBuy then incoming.id else best.id,
          if incoming.isBuy then best.id else incoming.id,
          incoming.id, incoming.isBuy,
          if incoming.isBuy then best.level else incoming.level,
          size)
  }

  datatype Matched = Matched(opposite: seq<Order>, remaining: int, trades: seq<Trade>)

  /** The opposite side after its best order has given up `size`. */
  function Reduce(opposite: seq<Order>, size: int): seq<Order>
    requires opposite != []
  {
    var n := |opposite| - 1;
    if opposite[n].qty - size == 0 then opposite[..n]
    else opposite[n := opposite[n].(qty := opposite[n].qty - size)]
  }

  /** The matching loop, one trade at a time. */
  function Match(opposite: seq<Order>, incoming: Order, remaining: int): Matched
    decreases |opposite| + if remaining > 0 then 1 else 0
  {
    if opposite == [] || remaining <= 0 || !Crosses(incoming, opposite[|opposite| - 1]) then
      Matched(opposite, remaining, [])
    else
      var best := opposite[|opposite| - 1];
      var size := Min(best.qty, remaining);
      var rest := Match(Reduce(opposite, size), incoming, remaining - size);
      rest.(trades := [MakeTrade(incoming, best, size)] + rest.trades)
  }

  predicate HasId(s: seq<Order>, id: nat) {
    exists i :: 0 <= i < |s| && s[i].id == id
  }

  predicate IsDupe(b: Book, id: nat) {
    HasId(b.bids, id) || HasId(b.asks, id)
  }

  /** The comparison that insertion uses: an order at this level stays ahead of the insertion point. */
  predicate Worse(isBuy: bool, resting: int, level: int) {
    if isBuy then resting < level else resting > level
  }

  /** How many leading orders are strictly worse than the level. */
  function InsertPos(s: seq<Order>, isBuy: bool, level: int): (p: nat)
    ensures p <= |s|
    ensures forall i :: 0 <= i < p ==> Worse(isBuy, s[i].level, level)
    ensures p < |s| ==> !Worse(isBuy, s[p].level, level)
  {
    if s == [] || !Worse(isBuy, s[0].level, level) then 0 else 1 + InsertPos(s[1..], isBuy, level)
  }

  function InsertAt<T>(s: seq<T>, p: nat, x: T): (r: seq<T>)
    requires p <= |s|
    ensures |r| == |s| + 1
    ensures forall i :: 0 <= i < |r| ==> r[i] == if i < p then s[i] else if i == p then x else s[i - 1]
  {
    s[..p] + [x] + s[p..]
  }

  function Insert(b: Book, o: Order): Book {
    if IsDupe(b, o.id) then b
    else
      var s := b.Side(o.isBuy);
      b.WithSide(o.isBuy, InsertAt(s, InsertPos(s, o.isBuy, o.level), o))
  }

  datatype Outcome = Outcome(book: Book, trades: seq<Trade>)

  function Add(b: Book, incoming: Order): Outcome {
    if IsDupe(b, incoming.id) then Outcome(b, [])
    else
      var m := Match(b.Side(!incoming.isBuy), incoming, incoming.qty);
      var b' := b.WithSide(!incoming.isBuy, m.opposite);
      Outcome(if m.remaining > 0 then Insert(b', incoming.(qty := m.remaining)) else b', m.trades)
  }

  /** Index of the first order with the id, or the length when there is none. */
  function FindId(s: seq<Order>, id: nat): (p: nat)
    ensures p <= |s|
    ensures forall i :: 0 <= i < p ==> s[i].id != id
    ensures p < |s| ==> s[p].id == id
  {
    if s == [] || s[0].id == id then 0 else 1 + FindId(s[1..], id)
  }

  function RemoveAt<T>(s: seq<T>, p: nat): (r: seq<T>)
    requires p < |s|
    ensures |r| == |s| - 1
    ensures forall i :: 0 <= i < |r| ==> r[i] == if i < p then s[i] else s[i + 1]
  {
    s[..p] + s[p + 1..]
  }

  function Cancel(b: Book, id: nat): Book {
    var i, j := FindId(b.bids, id), FindId(b.asks, id);
    if i < |b.bids| then b.(bids := RemoveAt(b.bids, i))
    else if j < |b.asks| then b.(asks := RemoveAt(b.asks, j))
    else b
  }
}

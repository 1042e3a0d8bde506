/** The matching engine as an object: two vectors updated in place. */
module Orderbook {
  import opened OrderbookModel
  import opened OrderbookProofs

  class Orderbook {
    var bids: seq<Order>
    var asks: seq<Order>

    ghost function Contents(): Book
      reads this
    {
      Book(bids, asks)
    }

    /** What std::ranges::lower_bound asks of the vectors. */
    ghost predicate Valid()
      reads this
    {
      Sorted(bids, true) && Sorted(asks, false)
    }

    constructor ()
      ensures Valid() && Contents() == Book([], [])
    {
      bids, asks := [], [];
    }

    static method AnyWithId(s: seq<Order>, id: nat) returns (found: bool)
      ensures found <==> HasId(s, id)
    {
      found := false;
      for i := 0 to |s|
        invariant forall k :: 0 <= k < i ==> s[k].id != id
      {
        if s[i].id == id {
          return true;
        }
      }
    }

    method IsDupe(order: Order) returns (dupe: bool)
      ensures dupe <==> OrderbookModel.IsDupe(Contents(), order.id)
    {
      dupe := AnyWithId(bids, order.id);
      if !dupe {
        dupe := AnyWithId(asks, order.id);
      }
    }

    /** Binary search for the first order that is not strictly worse than the level. */
    static method LowerBound(s: seq<Order>, isBuy: bool, level: int) returns (pos: nat)
      requires Sorted(s, isBuy)
      ensures pos == InsertPos(s, isBuy, level)
    {
      var first, len := 0, |s|;
      while len > 0
        invariant 0 <= first && 0 <= len && first + len <= |s|
        invariant forall i :: 0 <= i < first ==> Worse(isBuy, s[i].level, level)
        invariant forall i :: first + len <= i < |s| ==> !Worse(isBuy, s[i].level, level)
        decreases len
      {
        var half := len / 2;
        var mid := first + half;
        if Worse(isBuy, s[mid].level, level) {
          forall i | 0 <= i <= mid ensures Worse(isBuy, s[i].level, level) {
            assert i < mid ==> !Worse(isBuy, s[mid].level, s[i].level);
          }
          first, len := mid + 1, len - half - 1;
        } else {
          forall i | mid <= i < |s| ensures !Worse(isBuy, s[i].level, level) {
            assert mid < i ==> !Worse(isBuy, s[i].level, s[mid].level);
          }
          len := half;
        }
      }
      pos := first;
      assert pos < |s| ==> !Worse(isBuy, s[pos].level, level);
    }

    method InsertOrder(order: Order)
      requires Valid()
      modifies this
      ensures Contents() == Insert(old(Contents()), order)
      ensures Valid()
    {
      var dupe := IsDupe(order);
      if dupe {
        return;
      }
      if order.isBuy {
        var pos := LowerBound(bids, true, order.level);
        InsertKeepsSorted(bids, true, pos, order);
        bids := InsertAt(bids, pos, order);
      } else {
        var pos := LowerBound(asks, false, order.level);
        InsertKeepsSorted(asks, false, pos, order);
        asks := InsertAt(asks, pos, order);
      }
    }

    method AddOrder(incoming: Order) returns (trades: seq<Trade>)
      requires Valid()
      modifies this
      ensures Outcome(Contents(), trades) == Add(old(Contents()), incoming)
      ensures Valid()
    {
      trades := [];
      var dupe := IsDupe(incoming);
      if dupe {
        return;
      }
      var remaining;
      trades, remaining := MatchIncoming(incoming);
      if remaining > 0 {
        InsertOrder(incoming.(qty := remaining));
      }
    }

    /** The matching loop. */
    method MatchIncoming(incoming: Order) returns (trades: seq<Trade>, remaining: int)
      requires Valid()
      modifies this
      ensures Valid()
      ensures var m := Match(old(Opposite(incoming)), incoming, incoming.qty);
              && trades == m.trades && remaining == m.remaining
              && Contents() == old(Contents()).WithSide(!incoming.isBuy, m.opposite)
    {
      hide Match, Reduce, Sorted, MakeTrade, Crosses;
      trades, remaining := [], incoming.qty;
      PrependNothing(Match(Opposite(incoming), incoming, remaining));
      hide Prepend;
      while Opposite(incoming) != [] && remaining > 0
        invariant Valid() && Contents().Side(incoming.isBuy) == old(Contents()).Side(incoming.isBuy)
        invariant Match(old(Opposite(incoming)), incoming, incoming.qty) ==
                  Prepend(trades, Match(Opposite(incoming), incoming, remaining))
        decreases |Opposite(incoming)| + if remaining > 0 then 1 else 0
      {
        var best := Opposite(incoming)[|Opposite(incoming)| - 1];
        var matches := CanTrade(incoming, best);
        if !matches {
          break;
        }
        MatchOnce(Opposite(incoming), incoming, remaining, trades);
        var trade := TradeWithBest(incoming, remaining);
        trades := trades + [trade];
        remaining := remaining - trade.size;
      }
      MatchDone(Opposite(incoming), incoming, remaining);
      PrependToNothing(trades, Opposite(incoming), remaining);
    }

    /** Which of the two is the buy decides the order of the price comparison. */
    static method CanTrade(incoming: Order, best: Order) returns (matches: bool)
      ensures matches <==> Crosses(incoming, best)
    {
      matches := if incoming.isBuy then CanMatch(incoming, best) else CanMatch(best, incoming);
    }

    /** opposite_side, the vector an incoming order trades with. */
    function Opposite(incoming: Order): seq<Order>
      reads this
    {
      if incoming.isBuy then asks else bids
    }

    /** One turn of the matching loop: the trade, and the best order reduced or removed in place. */
    method TradeWithBest(incoming: Order, remaining: int) returns (trade: Trade)
      requires Valid() && Opposite(incoming) != [] && remaining > 0
      modifies this
      ensures Valid() && Contents().Side(incoming.isBuy) == old(Contents()).Side(incoming.isBuy)
      ensures var s := old(Opposite(incoming));
              var size := Min(s[|s| - 1].qty, remaining);
              && trade == MakeTrade(incoming, s[|s| - 1], size) && trade.size == size
              && trade.bidId == (if incoming.isBuy then incoming else s[|s| - 1]).id
              && trade.askId == (if incoming.isBuy then s[|s| - 1] else incoming).id
              && trade.aggressorId == incoming.id && trade.aggressorIsBuy == incoming.isBuy
              && trade.level == (if incoming.isBuy then s[|s| - 1] else incoming).level
              && Opposite(incoming) == Reduce(s, size)
      ensures |Opposite(incoming)| <= |old(Opposite(incoming))|
      ensures trade.size < remaining ==> |Opposite(incoming)| < |old(Opposite(incoming))|
    {
      var opposite := Opposite(incoming);
      var last := |opposite| - 1;
      var best := opposite[last];
      var size := Min(best.qty, remaining);
      ReduceKeepsSorted(opposite, !incoming.isBuy, size);
      ReduceInPlace(opposite, size);
      trade := MakeTrade(incoming, best, size);
      opposite := opposite[last := best.(qty := best.qty - size)];
      if opposite[last].qty == 0 {
        opposite := opposite[..last];
      }
      if incoming.isBuy {
        asks := opposite;
      } else {
        bids := opposite;
      }
    }

    static method FindIf(s: seq<Order>, id: nat) returns (pos: nat)
      ensures pos == FindId(s, id)
    {
      pos := 0;
      while pos < |s| && s[pos].id != id
        invariant pos <= |s|
        invariant forall k :: 0 <= k < pos ==> s[k].id != id
      {
        pos := pos + 1;
      }
    }

    method CancelOrder(id: nat)
      requires Valid()
      modifies this
      ensures Contents() == Cancel(old(Contents()), id)
      ensures Valid()
    {
      var bid := FindIf(bids, id);
      if bid != |bids| {
        bids := RemoveAt(bids, bid);
        return;
      }
      var ask := FindIf(asks, id);
      if ask != |asks| {
        asks := RemoveAt(asks, ask);
      }
    }
  }

  lemma InsertKeepsSorted(s: seq<Order>, isBuy: bool, pos: nat, o: Order)
    requires Sorted(s, isBuy) && pos == InsertPos(s, isBuy, o.level)
    ensures Sorted(InsertAt(s, pos, o), isBuy)
  {
  }

  lemma ReduceKeepsSorted(s: seq<Order>, isBuy: bool, size: int)
    requires Sorted(s, isBuy) && s != []
    ensures Sorted(Reduce(s, size), isBuy)
  {
  }

  /** Writing the reduced quantity back and popping an emptied order is Reduce. */
  lemma ReduceInPlace(s: seq<Order>, size: int)
    requires s != []
    ensures var n := |s| - 1;
            var s' := s[n := s[n].(qty := s[n].qty - size)];
            Reduce(s, size) == if s[n].qty - size == 0 then s'[..n] else s'
  {
  }

  function Prepend(trades: seq<Trade>, m: Matched): Matched {
    m.(trades := trades + m.trades)
  }

  lemma PrependNothing(m: Matched)
    ensures Prepend([], m) == m
  {
  }

  lemma PrependToNothing(trades: seq<Trade>, opposite: seq<Order>, remaining: int)
    ensures Prepend(trades, Matched(opposite, remaining, [])) == Matched(opposite, remaining, trades)
  {
  }

  /** One turn of the matching loop. */
  lemma MatchOnce(s: seq<Order>, o: Order, q: int, trades: seq<Trade>)
    requires s != [] && q > 0 && Crosses(o, s[|s| - 1])
    ensures var best := s[|s| - 1];
            var size := Min(best.qty, q);
            var m, rest := Match(s, o, q), Match(Reduce(s, size), o, q - size);
            Prepend(trades, m) == Prepend(trades + [MakeTrade(o, best, size)], rest)
  {
  }

  lemma MatchDone(s: seq<Order>, o: Order, q: int)
    requires s == [] || q <= 0 || !Crosses(o, s[|s| - 1])
    ensures Match(s, o, q) == Matched(s, q, [])
  {
  }

  /** No two of the trades are with the same resting order. */
  ghost predicate CounterpartiesDiffer(t: seq<Trade>, o: Order) {
    forall k, l :: 0 <= k < l < |t| ==>
      if o.isBuy then t[k].askId != t[l].askId else t[k].bidId != t[l].bidId
  }

  lemma DistinctCounterparties(s: seq<Order>, o: Order, t: seq<Trade>)
    requires SideOk(s, !o.isBuy) && TradesInOrder(t, o, s)
    ensures CounterpartiesDiffer(t, o)
  {
  }

  /** Every trade is at the ask's limit, which the bid's limit does not undercut. */
  ghost predicate AskLimitPrices(t: seq<Trade>, o: Order, s: seq<Order>) {
    |t| <= |s| && forall k :: 0 <= k < |t| ==>
      var r := s[|s| - 1 - k];
      t[k].level == (if o.isBuy then r else o).level <= (if o.isBuy then o else r).level
  }

  lemma TradePrices(s: seq<Order>, o: Order, t: seq<Trade>)
    requires TradesInOrder(t, o, s)
    ensures AskLimitPrices(t, o, s)
  {
  }

  /**
   * One AddOrder of a new id with positive quantity: it trades exactly what it can,
   * with distinct resting orders from the best down, each at the ask's limit and
   * never above the bid's, the bid id first and the incoming order as the aggressor.
   */
  lemma AddOrderTrades(b: Book, o: Order)
    requires BookOk(b) && !OrderbookModel.IsDupe(b, o.id) && o.qty > 0
    ensures SumSizes(Add(b, o).trades) == Min(o.qty, Crossing(b.Side(!o.isBuy), o))
    ensures TradesInOrder(Add(b, o).trades, o, b.Side(!o.isBuy))
    ensures CounterpartiesDiffer(Add(b, o).trades, o)
    ensures AskLimitPrices(Add(b, o).trades, o, b.Side(!o.isBuy))
    ensures forall t :: t in Add(b, o).trades ==>
              && t.aggressorId == o.id && t.aggressorIsBuy == o.isBuy
              && (if o.isBuy then t.bidId else t.askId) == o.id
              && exists r :: r in b.Side(!o.isBuy) && (if o.isBuy then t.askId else t.bidId) == r.id
  {
    var s := b.Side(!o.isBuy);
    AddSides(b, o);
    MatchTradesInOrder(s, o, o.qty);
    MatchTradesAll(s, o, o.qty);
    DistinctCounterparties(s, o, Add(b, o).trades);
    TradePrices(s, o, Add(b, o).trades);
  }
}

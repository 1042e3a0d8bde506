/** What one call of the matching engine does to a book. */
module OrderbookProofs {
  import opened OrderbookModel

  // -------------------------------------------------------------------- invariants

  /** Worst first: bids ascend, asks descend. */
  ghost predicate Sorted(s: seq<Order>, isBuy: bool) {
    forall i, j :: 0 <= i < j < |s| ==> !Worse(isBuy, s[j].level, s[i].level)
  }

  ghost predicate SideOk(s: seq<Order>, isBuy: bool) {
    && Sorted(s, isBuy)
    && (forall i :: 0 <= i < |s| ==> s[i].qty > 0 && s[i].isBuy == isBuy)
    && (forall i, j :: 0 <= i < j < |s| ==> s[i].id != s[j].id)
  }

  /** No id rests on both sides, and every bid is below every ask. */
  ghost predicate Uncrossed(bids: seq<Order>, asks: seq<Order>) {
    forall i, j :: 0 <= i < |bids| && 0 <= j < |asks| ==>
      bids[i].id != asks[j].id && bids[i].level < asks[j].level
  }

  ghost predicate BookOk(b: Book) {
    SideOk(b.bids, true) && SideOk(b.asks, false) && Uncrossed(b.bids, b.asks)
  }

  ghost predicate NoneCrosses(s: seq<Order>, o: Order) {
    forall i :: 0 <= i < |s| ==> !Crosses(o, s[i])
  }

  /** s' is a prefix of s except that its last order may have lost part of its quantity. */
  ghost predicate Shrunk(s: seq<Order>, s': seq<Order>) {
    && |s'| <= |s|
    && (forall i :: 0 <= i < |s'| - 1 ==> s'[i] == s[i])
    && (s' != [] ==> var n := |s'| - 1;
                     s'[n] == s[n].(qty := s'[n].qty) && 0 < s'[n].qty <= s[n].qty)
  }

  /** Matching only eats into the opposite side from its best end, and each resting order trades at most once. */
  lemma {:induction false} MatchShrinks(s: seq<Order>, o: Order, q: int)
    requires SideOk(s, !o.isBuy)
    ensures Shrunk(s, Match(s, o, q).opposite)
    ensures q > 0 ==> Match(s, o, q).remaining >= 0
    ensures q <= 0 ==> Match(s, o, q).remaining == q
    ensures var m := Match(s, o, q);
            m.remaining > 0 && m.opposite != [] ==> !Crosses(o, m.opposite[|m.opposite| - 1])
    decreases |s| + if q > 0 then 1 else 0
  {
    if s != [] && q > 0 && Crosses(o, s[|s| - 1]) {
      var size := Min(s[|s| - 1].qty, q);
      ReduceOk(s, o, size);
      MatchShrinks(Reduce(s, size), o, q - size);
    }
  }

  lemma ReduceOk(s: seq<Order>, o: Order, size: int)
    requires SideOk(s, !o.isBuy) && s != [] && 0 < size <= s[|s| - 1].qty
    ensures SideOk(Reduce(s, size), !o.isBuy)
    ensures Shrunk(s, Reduce(s, size))
  {
  }

  /** The buyer pays at least what the seller asks. */
  ghost predicate Willing(o: Order, r: Order) {
    if o.isBuy then r.level <= o.level else o.level <= r.level
  }

  lemma CrossesIffWilling(o: Order, r: Order)
    ensures Crosses(o, r) <==> Willing(o, r)
  {
  }

  /**
   * A trade between the incoming order, which is the aggressor, and r: the buyer's id is the
   * bid id, the seller's the ask id, the price is the seller's limit, and the size is
   * positive and no more than r holds.
   */
  ghost predicate TradeWith(t: Trade, o: Order, r: Order) {
    && t.bidId == (if o.isBuy then o.id else r.id)
    && t.askId == (if o.isBuy then r.id else o.id)
    && t.aggressorId == o.id && t.aggressorIsBuy == o.isBuy
    && t.level == (if o.isBuy then r.level else o.level)
    && Willing(o, r) && 0 < t.size <= r.qty
  }

  /** Trade k is with the k-th best resting order, and takes all of it unless it is the last trade. */
  ghost predicate TradesInOrder(t: seq<Trade>, o: Order, s: seq<Order>) {
    && |t| <= |s|
    && (forall k :: 0 <= k < |t| ==> TradeWith(t[k], o, s[|s| - 1 - k]))
    && (forall k :: 0 <= k < |t| - 1 ==> t[k].size == s[|s| - 1 - k].qty)
  }

  lemma {:induction false} MatchTradesInOrder(s: seq<Order>, o: Order, q: int)
    requires SideOk(s, !o.isBuy)
    ensures TradesInOrder(Match(s, o, q).trades, o, s)
    decreases |s| + if q > 0 then 1 else 0
  {
    if s != [] && q > 0 && Crosses(o, s[|s| - 1]) {
      var best := s[|s| - 1];
      var size := Min(best.qty, q);
      var rest := Match(Reduce(s, size), o, q - size).trades;
      ReduceOk(s, o, size);
      MatchTradesInOrder(Reduce(s, size), o, q - size);
      if best.qty == size {
        FirstTrade(s, o, rest);
      } else {
        assert rest == [];
      }
    }
  }

  lemma FirstTrade(s: seq<Order>, o: Order, rest: seq<Trade>)
    requires s != [] && TradesInOrder(rest, o, s[..|s| - 1])
    requires s[|s| - 1].qty > 0 && Crosses(o, s[|s| - 1])
    ensures TradesInOrder([MakeTrade(o, s[|s| - 1], s[|s| - 1].qty)] + rest, o, s)
  {
  }

  // -------------------------------------------------------------------- quantities

  function SumSizes(t: seq<Trade>): int {
    if t == [] then 0 else t[0].size + SumSizes(t[1..])
  }

  function SumQty(s: seq<Order>): int {
    if s == [] then 0 else SumQty(s[..|s| - 1]) + s[|s| - 1].qty
  }

  /** Quantity resting at levels the incoming order is willing to trade at. */
  function Crossing(s: seq<Order>, o: Order): int {
    if s == [] then 0
    else Crossing(s[..|s| - 1], o) + if Crosses(o, s[|s| - 1]) then s[|s| - 1].qty else 0
  }

  lemma {:induction false} MatchConserves(s: seq<Order>, o: Order, q: int)
    ensures var m := Match(s, o, q);
            && SumSizes(m.trades) == q - m.remaining
            && SumQty(m.opposite) == SumQty(s) - SumSizes(m.trades)
    decreases |s| + if q > 0 then 1 else 0
  {
    if s != [] && q > 0 && Crosses(o, s[|s| - 1]) {
      var size := Min(s[|s| - 1].qty, q);
      MatchConserves(Reduce(s, size), o, q - size);
      assert s[|s| - 1 := s[|s| - 1].(qty := s[|s| - 1].qty - size)][..|s| - 1] == s[..|s| - 1];
      assert Match(s, o, q).trades[1..] == Match(Reduce(s, size), o, q - size).trades;
    }
  }

  lemma {:induction false} NoneCross(s: seq<Order>, o: Order)
    requires SideOk(s, !o.isBuy) && (s == [] || !Crosses(o, s[|s| - 1]))
    ensures Crossing(s, o) == 0
  {
    if s != [] {
      var t := s[..|s| - 1];
      if t != [] {
        assert !Worse(!o.isBuy, s[|s| - 1].level, s[|s| - 2].level);
      }
      NoneCross(t, o);
    }
  }

  lemma {:induction false} CrossingNonNegative(s: seq<Order>, o: Order)
    requires forall i :: 0 <= i < |s| ==> s[i].qty > 0
    ensures Crossing(s, o) >= 0
  {
    if s != [] {
      CrossingNonNegative(s[..|s| - 1], o);
    }
  }

  /** A positive order trades exactly as much as it can: its own size or everything that crosses, whichever is less. */
  lemma {:induction false} MatchTradesAll(s: seq<Order>, o: Order, q: int)
    requires SideOk(s, !o.isBuy) && q >= 0
    ensures SumSizes(Match(s, o, q).trades) == Min(q, Crossing(s, o))
    decreases |s| + if q > 0 then 1 else 0
  {
    CrossingNonNegative(s, o);
    if s == [] || !Crosses(o, s[|s| - 1]) {
      NoneCross(s, o);
    } else if q > 0 {
      var best := s[|s| - 1];
      var size := Min(best.qty, q);
      ReduceOk(s, o, size);
      CrossingNonNegative(s[..|s| - 1], o);
      MatchTradesAll(Reduce(s, size), o, q - size);
      assert Match(s, o, q).trades[1..] == Match(Reduce(s, size), o, q - size).trades;
    }
  }

  // --------------------------------------------------------------------- insertion

  lemma InsertKeepsSide(s: seq<Order>, o: Order)
    requires SideOk(s, o.isBuy) && o.qty > 0 && !HasId(s, o.id)
    ensures SideOk(InsertAt(s, InsertPos(s, o.isBuy, o.level), o), o.isBuy)
  {
    var p := InsertPos(s, o.isBuy, o.level);
    var s' := InsertAt(s, p, o);
    forall i, j | 0 <= i < j < |s'|
      ensures !Worse(o.isBuy, s'[j].level, s'[i].level) && s'[i].id != s'[j].id
    {
      if j == p {
        assert Worse(o.isBuy, s[i].level, o.level);
      } else if i == p && p < j - 1 {
        assert !Worse(o.isBuy, s[j - 1].level, s[p].level);
      }
    }
  }

  /** What the book looks like between the matching loop and the insertion of the residual. */
  ghost predicate Residual(b: Book, o: Order, m: Matched) {
    && Shrunk(b.Side(!o.isBuy), m.opposite)
    && (m.remaining > 0 && m.opposite != [] ==> !Crosses(o, m.opposite[|m.opposite| - 1]))
  }

  lemma MatchedBookOk(b: Book, o: Order)
    requires BookOk(b) && !IsDupe(b, o.id)
    ensures var m := Match(b.Side(!o.isBuy), o, o.qty);
            && BookOk(b.WithSide(!o.isBuy, m.opposite))
            && !IsDupe(b.WithSide(!o.isBuy, m.opposite), o.id)
            && Residual(b, o, m)
  {
    var s, m := b.Side(!o.isBuy), Match(b.Side(!o.isBuy), o, o.qty);
    SidesOk(b);
    MatchShrinks(s, o, o.qty);
    hide Match, Shrunk, SideOk, Uncrossed, HasId, Crosses;
    ShrunkKeepsSide(s, m.opposite, !o.isBuy);
    ShrunkIds(s, m.opposite, o.id);
    ShrunkKeepsUncrossed(b, !o.isBuy, m.opposite);
  }

  lemma SidesOk(b: Book)
    requires BookOk(b)
    ensures SideOk(b.Side(true), true) && SideOk(b.Side(false), false)
  {
  }

  lemma ShrunkKeepsUncrossed(b: Book, isBuy: bool, s': seq<Order>)
    requires BookOk(b) && Shrunk(b.Side(isBuy), s')
    ensures Uncrossed(b.WithSide(isBuy, s').bids, b.WithSide(isBuy, s').asks)
  {
  }

  lemma ShrunkIds(s: seq<Order>, s': seq<Order>, id: nat)
    requires Shrunk(s, s') && !HasId(s, id)
    ensures !HasId(s', id)
  {
  }

  lemma ShrunkKeepsSide(s: seq<Order>, s': seq<Order>, isBuy: bool)
    requires SideOk(s, isBuy) && Shrunk(s, s')
    ensures SideOk(s', isBuy)
    ensures forall i :: 0 <= i < |s'| ==> s'[i].id == s[i].id && s'[i].level == s[i].level
  {
  }

  /** The worst-first order makes the last resting order the one that decides crossing for all. */
  lemma NoCrossBelowBest(s: seq<Order>, o: Order, i: nat)
    requires SideOk(s, !o.isBuy) && i < |s| && !Crosses(o, s[|s| - 1])
    ensures !Crosses(o, s[i])
  {
  }

  /** The second duplicate test, inside insert_order, never drops a residual. */
  lemma ResidualNeverDropped(b: Book, o: Order)
    requires BookOk(b) && !IsDupe(b, o.id)
    ensures var m := Match(b.Side(!o.isBuy), o, o.qty);
            m.remaining > 0 ==>
              exists p: nat :: p < |Add(b, o).book.Side(o.isBuy)|
                            && Add(b, o).book.Side(o.isBuy)[p] == o.(qty := m.remaining)
  {
    var m := Match(b.Side(!o.isBuy), o, o.qty);
    MatchedBookOk(b, o);
    if m.remaining > 0 {
      var p := InsertPos(b.Side(o.isBuy), o.isBuy, o.level);
      assert Add(b, o).book.Side(o.isBuy)[p] == o.(qty := m.remaining);
    }
  }

  lemma InsertKeepsUncrossed(b: Book, o: Order)
    requires Uncrossed(b.bids, b.asks) && !IsDupe(b, o.id) && NoneCrosses(b.Side(!o.isBuy), o)
    ensures Uncrossed(Insert(b, o).bids, Insert(b, o).asks)
  {
  }

  lemma InsertKeepsBook(b: Book, o: Order)
    requires BookOk(b) && !IsDupe(b, o.id) && o.qty > 0 && NoneCrosses(b.Side(!o.isBuy), o)
    ensures BookOk(Insert(b, o))
  {
    InsertKeepsSide(b.Side(o.isBuy), o);
    InsertKeepsUncrossed(b, o);
  }

  /**
   * insert_order by itself, which skips matching, keeps a book in order exactly when the
   * order has positive quantity and crosses nothing.
   */
  lemma InsertKeepsBookIff(b: Book, o: Order)
    requires BookOk(b) && !IsDupe(b, o.id)
    ensures BookOk(Insert(b, o)) <==> o.qty > 0 && NoneCrosses(b.Side(!o.isBuy), o)
  {
    if o.qty > 0 && NoneCrosses(b.Side(!o.isBuy), o) {
      InsertKeepsBook(b, o);
    }
    if BookOk(Insert(b, o)) {
      RestingAsItShould(b, o);
    }
  }

  lemma RestingAsItShould(b: Book, o: Order)
    requires !IsDupe(b, o.id) && BookOk(Insert(b, o))
    ensures o.qty > 0 && NoneCrosses(b.Side(!o.isBuy), o)
  {
    var b', t := Insert(b, o), b.Side(!o.isBuy);
    var p := InsertPos(b.Side(o.isBuy), o.isBuy, o.level);
    assert b'.Side(o.isBuy)[p] == o && b'.Side(!o.isBuy) == t;
    forall i | 0 <= i < |t| ensures !Crosses(o, t[i]) {
      assert b'.Side(!o.isBuy)[i] == t[i];
    }
  }

  lemma AddKeepsBook(b: Book, o: Order)
    requires BookOk(b)
    ensures BookOk(Add(b, o).book)
  {
    if !IsDupe(b, o.id) {
      var m := Match(b.Side(!o.isBuy), o, o.qty);
      var b' := b.WithSide(!o.isBuy, m.opposite);
      MatchedBookOk(b, o);
      if m.remaining > 0 {
        forall i | 0 <= i < |m.opposite| ensures !Crosses(o, m.opposite[i]) {
          NoCrossBelowBest(m.opposite, o, i);
        }
        assert NoneCrosses(b'.Side(!o.isBuy), o.(qty := m.remaining));
        InsertKeepsBook(b', o.(qty := m.remaining));
      }
    }
  }

  lemma RemoveKeepsSide(s: seq<Order>, isBuy: bool, p: nat)
    requires SideOk(s, isBuy) && p < |s|
    ensures SideOk(RemoveAt(s, p), isBuy)
  {
  }

  lemma CancelKeepsBook(b: Book, id: nat)
    requires BookOk(b)
    ensures BookOk(Cancel(b, id))
  {
    var i, j := FindId(b.bids, id), FindId(b.asks, id);
    if i < |b.bids| {
      RemoveKeepsSide(b.bids, true, i);
    } else if j < |b.asks| {
      RemoveKeepsSide(b.asks, false, j);
    }
  }

  // ----------------------------------------------------- one call undone by another

  /** Adding a fresh order that does not cross, then cancelling it, restores the book exactly. */
  lemma AddThenCancelRestores(b: Book, o: Order)
    requires BookOk(b) && !IsDupe(b, o.id) && NoneCrosses(b.Side(!o.isBuy), o)
    ensures Add(b, o).trades == []
    ensures Cancel(Add(b, o).book, o.id) == b
  {
    hide BookOk;
    assert Match(b.Side(!o.isBuy), o, o.qty) == Matched(b.Side(!o.isBuy), o.qty, []);
    assert b.WithSide(!o.isBuy, b.Side(!o.isBuy)) == b;
    hide Match;
    FindAbsent(b.bids, o.id);
    FindAbsent(b.asks, o.id);
    if o.qty > 0 {
      assert o.(qty := o.qty) == o;
      assert Add(b, o).book == Insert(b, o);
      InsertThenCancel(b, o);
    }
  }

  lemma InsertThenCancel(b: Book, o: Order)
    requires !IsDupe(b, o.id)
    ensures Cancel(Insert(b, o), o.id) == b
  {
    var s := b.Side(o.isBuy);
    var p := InsertPos(s, o.isBuy, o.level);
    FindAbsent(b.bids, o.id);
    FindInserted(s, p, o);
    assert RemoveAt(InsertAt(s, p, o), p) == s;
  }

  lemma FindInserted(s: seq<Order>, p: nat, o: Order)
    requires p <= |s| && !HasId(s, o.id)
    ensures FindId(InsertAt(s, p, o), o.id) == p
  {
    var s' := InsertAt(s, p, o);
    assert s'[p].id == o.id;
    assert forall i :: 0 <= i < p ==> s'[i].id != o.id;
  }

  lemma FindAbsent(s: seq<Order>, id: nat)
    requires !HasId(s, id)
    ensures FindId(s, id) == |s|
  {
  }

  // --------------------------------------------------------------------- splitting

  /** Matching looks only at the incoming order's side and level. */
  lemma {:induction false} MatchIgnoresId(s: seq<Order>, o1: Order, o2: Order, q: int)
    requires o1.isBuy == o2.isBuy && o1.level == o2.level
    ensures Match(s, o1, q).opposite == Match(s, o2, q).opposite
    ensures Match(s, o1, q).remaining == Match(s, o2, q).remaining
    decreases |s| + if q > 0 then 1 else 0
  {
    if s != [] && q > 0 && Crosses(o1, s[|s| - 1]) {
      var size := Min(s[|s| - 1].qty, q);
      MatchIgnoresId(Reduce(s, size), o1, o2, q - size);
    }
  }

  /** One turn of the loop, as far as quantities go. */
  lemma MatchOneTurn(s: seq<Order>, o: Order, q: int)
    requires s != [] && q > 0 && Crosses(o, s[|s| - 1])
    ensures var size := Min(s[|s| - 1].qty, q);
            var m, rest := Match(s, o, q), Match(Reduce(s, size), o, q - size);
            m.opposite == rest.opposite && m.remaining == rest.remaining
  {
  }

  /** Matching a + b at once or a and then b eats the same from the opposite side. */
  lemma {:induction false} MatchSplits(s: seq<Order>, o: Order, a: int, b: int)
    requires SideOk(s, !o.isBuy) && a >= 0 && b > 0
    ensures var m, m1 := Match(s, o, a + b), Match(s, o, a);
            var m2 := Match(m1.opposite, o, b);
            m.opposite == m2.opposite && m.remaining == m1.remaining + m2.remaining
    decreases |s| + if a > 0 then 1 else 0
  {
    hide SideOk, Shrunk, Crosses, Reduce;
    if s == [] || a == 0 || !Crosses(o, s[|s| - 1]) {
      assert Match(s, o, a) == Matched(s, a, []);
    } else if s[|s| - 1].qty <= a {
      var all := s[|s| - 1].qty;
      WholeBest(s, o);
      MatchOneTurn(s, o, a);
      MatchOneTurn(s, o, a + b);
      hide Match;
      MatchSplits(s[..|s| - 1], o, a - all, b);
    } else {
      SplitAtBest(s, o, a, b);
    }
  }

  lemma WholeBest(s: seq<Order>, o: Order)
    requires SideOk(s, !o.isBuy) && s != []
    ensures s[|s| - 1].qty > 0
    ensures Reduce(s, s[|s| - 1].qty) == s[..|s| - 1] && SideOk(s[..|s| - 1], !o.isBuy)
  {
  }

  /** The first part of a split order ends inside the best resting order. */
  lemma SplitAtBest(s: seq<Order>, o: Order, a: int, b: int)
    requires s != [] && Crosses(o, s[|s| - 1]) && 0 < a < s[|s| - 1].qty && b > 0
    ensures var m, m1 := Match(s, o, a + b), Match(s, o, a);
            var m2 := Match(m1.opposite, o, b);
            m1.remaining == 0 && m.opposite == m2.opposite && m.remaining == m2.remaining
  {
  }

  /** Both sides of the book after an order with a fresh id. */
  lemma AddSides(b: Book, o: Order)
    requires BookOk(b) && !IsDupe(b, o.id)
    ensures var m, same := Match(b.Side(!o.isBuy), o, o.qty), b.Side(o.isBuy);
            && Add(b, o).trades == m.trades
            && Add(b, o).book.Side(!o.isBuy) == m.opposite
            && Add(b, o).book.Side(o.isBuy) ==
               if m.remaining > 0 then InsertAt(same, InsertPos(same, o.isBuy, o.level), o.(qty := m.remaining))
                else same
  {
    MatchedBookOk(b, o);
  }

  /** Only the residual's id can join a book. */
  lemma AddIds(b: Book, o: Order, id: nat)
    requires BookOk(b) && !IsDupe(b, id) && id != o.id
    ensures !IsDupe(Add(b, o).book, id)
  {
    if !IsDupe(b, o.id) {
      var m := Match(b.Side(!o.isBuy), o, o.qty);
      MatchedBookOk(b, o);
      AddSides(b, o);
      ShrunkIds(b.Side(!o.isBuy), m.opposite, id);
      if m.remaining > 0 {
        InsertedIds(b.Side(o.isBuy), InsertPos(b.Side(o.isBuy), o.isBuy, o.level), o.(qty := m.remaining), id);
      }
    }
  }

  lemma InsertedIds(s: seq<Order>, p: nat, o: Order, id: nat)
    requires p <= |s| && !HasId(s, id) && o.id != id
    ensures !HasId(InsertAt(s, p, o), id)
  {
  }

  /**
   * Splitting an order is invisible to the other side: one order of a + b, or two
   * fresh orders of a then b at the same side and level, leave the same opposite
   * book and trade the same total.
   */
  lemma SplittingIsInvisible(b: Book, o: Order, o1: Order, o2: Order)
    requires BookOk(b) && !IsDupe(b, o.id) && !IsDupe(b, o1.id) && !IsDupe(b, o2.id) && o1.id != o2.id
    requires o1.isBuy == o.isBuy && o2.isBuy == o.isBuy && o1.level == o.level && o2.level == o.level
    requires o1.qty > 0 && o2.qty > 0 && o.qty == o1.qty + o2.qty
    ensures var whole, first := Add(b, o), Add(b, o1);
            var second := Add(first.book, o2);
            && whole.book.Side(!o.isBuy) == second.book.Side(!o.isBuy)
            && SumSizes(whole.trades) == SumSizes(first.trades) + SumSizes(second.trades)
  {
    hide *;
    var first := Add(b, o1);
    AddKeepsBook(b, o1);
    AddIds(b, o1, o2.id);
    AddSides(b, o);
    AddSides(b, o1);
    AddSides(first.book, o2);
    SplitTotals(b.Side(!o.isBuy), o, o1, o2) by {
      SidesOk(b);
    }
  }

  lemma SplitTotals(s: seq<Order>, o: Order, o1: Order, o2: Order)
    requires SideOk(s, !o.isBuy)
    requires o1.isBuy == o.isBuy && o2.isBuy == o.isBuy && o1.level == o.level && o2.level == o.level
    requires o1.qty > 0 && o2.qty > 0 && o.qty == o1.qty + o2.qty
    ensures var m, m1 := Match(s, o, o.qty), Match(s, o1, o1.qty);
            var m2 := Match(m1.opposite, o2, o2.qty);
            m.opposite == m2.opposite && SumSizes(m.trades) == SumSizes(m1.trades) + SumSizes(m2.trades)
  {
    hide *;
    var s1 := Match(s, o1, o1.qty).opposite;
    MatchIgnoresId(s, o, o1, o1.qty);
    MatchIgnoresId(s1, o, o2, o2.qty);
    MatchSplits(s, o, o1.qty, o2.qty);
    MatchConserves(s, o, o.qty);
    MatchConserves(s, o1, o1.qty);
    MatchConserves(s1, o2, o2.qty);
  }
}

/**
 * Price-time priority as an independent reference: an unordered set of resting
 * orders, each with its arrival number, where every trade is with the crossing order
 * that is best in price and, at that price, oldest. The sorted-vector engine refines it.
 */
module OrderbookPriority {
  import opened OrderbookModel
  import opened OrderbookProofs
  import opened OrderbookRuns

  datatype Rec = Rec(order: Order, arrival: nat)

  datatype SpecBook = SpecBook(bids: set<Rec>, asks: set<Rec>, clock: nat) {
    ghost function Side(isBuy: bool): set<Rec> {
      if isBuy then bids else asks
    }
  }

  /** a comes before b in price-time priority on the side where both rest. */
  ghost predicate Better(a: Rec, b: Rec, isBuy: bool) {
    || (if isBuy then a.order.level > b.order.level else a.order.level < b.order.level)
    || (a.order.level == b.order.level && a.arrival < b.arrival)
  }

  /** r is the crossing order with the best price and, at that price, the earliest arrival. */
  ghost predicate Chosen(opposite: set<Rec>, o: Order, r: Rec) {
    && r in opposite && Crosses(o, r.order)
    && forall r' :: r' in opposite && r' != r && Crosses(o, r'.order) ==> Better(r, r', !o.isBuy)
  }

  /** The resting orders after r gives up `size`; what is left of r keeps its arrival number. */
  ghost function Taken(opposite: set<Rec>, r: Rec, size: int): set<Rec> {
    opposite - {r} +
    if r.order.qty == size then {} else {Rec(r.order.(qty := r.order.qty - size), r.arrival)}
  }

  /** The reference matching relation. */
  ghost predicate SpecMatch(opposite: set<Rec>, o: Order, q: int, trades: seq<Trade>, opposite': set<Rec>, q': int)
    decreases |trades|
  {
    if trades == [] then
      opposite' == opposite && q' == q && (q <= 0 || forall r :: r in opposite ==> !Crosses(o, r.order))
    else
      && q > 0
      && exists r ::
           && SpecTrade(opposite, o, q, r, trades[0])
           && SpecMatch(Taken(opposite, r, trades[0].size), o, q - trades[0].size, trades[1..], opposite', q')
  }

  /** The chosen order trades all it holds, or all that is wanted if that is less. */
  ghost predicate SpecTrade(opposite: set<Rec>, o: Order, q: int, r: Rec, t: Trade) {
    && Chosen(opposite, o, r) && TradeWith(t, o, r.order)
    && t.size == if r.order.qty <= q then r.order.qty else q
  }

  /** The reference leaves no choice: it determines the trades, the book and the residual. */
  lemma {:induction false} SpecMatchDetermined(
      opp: set<Rec>, o: Order, q: int, t1: seq<Trade>, s1: set<Rec>, q1: int, t2: seq<Trade>, s2: set<Rec>, q2: int)
    requires SpecMatch(opp, o, q, t1, s1, q1) && SpecMatch(opp, o, q, t2, s2, q2)
    ensures t1 == t2 && s1 == s2 && q1 == q2
    decreases |t1|
  {
    if t1 != [] && t2 != [] {
      var r1 :| SpecTrade(opp, o, q, r1, t1[0])
        && SpecMatch(Taken(opp, r1, t1[0].size), o, q - t1[0].size, t1[1..], s1, q1);
      var r2 :| SpecTrade(opp, o, q, r2, t2[0])
        && SpecMatch(Taken(opp, r2, t2[0].size), o, q - t2[0].size, t2[1..], s2, q2);
      assert r1 == r2;
      SpecMatchDetermined(Taken(opp, r1, t1[0].size), o, q - t1[0].size, t1[1..], s1, q1, t2[1..], s2, q2);
      assert t1 == [t1[0]] + t1[1..] && t2 == [t2[0]] + t2[1..];
    }
  }

  ghost predicate SpecHas(b: SpecBook, id: nat) {
    exists r :: r in b.bids + b.asks && r.order.id == id
  }

  ghost predicate SpecAdd(b: SpecBook, o: Order, trades: seq<Trade>, b': SpecBook) {
    if SpecHas(b, o.id) then trades == [] && b' == b
    else
      exists q' :: SpecAccept(b, o, trades, b', q')
  }

  /** The incoming order matches, and a positive residual q' rests as the newest order. */
  ghost predicate SpecAccept(b: SpecBook, o: Order, trades: seq<Trade>, b': SpecBook, q': int) {
    && SpecMatch(b.Side(!o.isBuy), o, o.qty, trades, b'.Side(!o.isBuy), q')
    && b'.Side(o.isBuy) == b.Side(o.isBuy) + (if q' > 0 then {Rec(o.(qty := q'), b.clock)} else {})
    && b'.clock == b.clock + 1
  }

  ghost function Without(s: set<Rec>, id: nat): set<Rec> {
    set r | r in s && r.order.id != id
  }

  ghost predicate SpecStep(b: SpecBook, op: Op, trades: seq<Trade>, b': SpecBook) {
    match op
    case AddOp(o) => SpecAdd(b, o, trades, b')
    case CancelOp(id) => trades == [] && b' == SpecBook(Without(b.bids, id), Without(b.asks, id), b.clock)
  }

  ghost function Front<T>(s: seq<T>): seq<T>
    requires s != []
  {
    s[..|s| - 1]
  }

  ghost function Last<T>(s: seq<T>): T
    requires s != []
  {
    s[|s| - 1]
  }

  /** A run of the reference that gives these trades, one list per operation. */
  ghost predicate SpecRun(ops: seq<Op>, trades: seq<seq<Trade>>, b: SpecBook)
    decreases |ops|
  {
    && |trades| == |ops|
    && if ops == [] then b == SpecBook({}, {}, 0)
       else exists b0 :: SpecStep(b0, Last(ops), Last(trades), b) && SpecRun(Front(ops), Front(trades), b0)
  }

  lemma {:induction false} SpecRunDetermined(
      ops: seq<Op>, t1: seq<seq<Trade>>, b1: SpecBook, t2: seq<seq<Trade>>, b2: SpecBook)
    requires SpecRun(ops, t1, b1) && SpecRun(ops, t2, b2)
    ensures t1 == t2 && b1 == b2
    decreases |ops|
  {
    if ops == [] {
      assert t1 == [] && t2 == [];
    } else {
      hide SpecStep, SpecRun, Front, Last;
      var a1, a2 := SpecRunLast(ops, t1, b1), SpecRunLast(ops, t2, b2);
      FrontSmaller(ops);
      SpecRunDetermined(Front(ops), Front(t1), a1, Front(t2), a2);
      SpecStepDetermined(a1, Last(ops), Last(t1), b1, Last(t2), b2);
      FrontLast(t1, t2);
    }
  }

  lemma FrontSmaller<T>(s: seq<T>)
    requires s != []
    ensures |Front(s)| == |s| - 1
  {
  }

  lemma FrontLast<T>(s: seq<T>, t: seq<T>)
    requires s != [] && t != [] && Front(s) == Front(t) && Last(s) == Last(t)
    ensures s == t
  {
  }

  /** The state before the last operation of a reference run. */
  ghost function SpecRunLast(ops: seq<Op>, t: seq<seq<Trade>>, b: SpecBook): (b0: SpecBook)
    requires SpecRun(ops, t, b) && ops != []
    ensures |t| == |ops| && SpecStep(b0, Last(ops), Last(t), b) && SpecRun(Front(ops), Front(t), b0)
  {
    var b0 :| SpecStep(b0, Last(ops), Last(t), b) && SpecRun(Front(ops), Front(t), b0); b0
  }

  lemma SpecStepDetermined(b: SpecBook, op: Op, t1: seq<Trade>, b1: SpecBook, t2: seq<Trade>, b2: SpecBook)
    requires SpecStep(b, op, t1, b1) && SpecStep(b, op, t2, b2)
    ensures t1 == t2 && b1 == b2
  {
    if op.AddOp? && !SpecHas(b, op.order.id) {
      var o := op.order;
      var opp := b.Side(!o.isBuy);
      var q1 :| SpecAccept(b, o, t1, b1, q1);
      var q2 :| SpecAccept(b, o, t2, b2, q2);
      SpecMatchDetermined(opp, o, o.qty, t1, b1.Side(!o.isBuy), q1, t2, b2.Side(!o.isBuy), q2);
    }
  }

  // ------------------------------------------------- the sorted vectors as such a set

  /** Every resting order has an arrival number below the clock, and equal prices rest newest first. */
  ghost predicate TimeOk(s: seq<Order>, arrival: map<nat, nat>, clock: nat) {
    && (forall i :: 0 <= i < |s| ==> s[i].id in arrival && arrival[s[i].id] < clock)
    && (forall i, j :: 0 <= i < j < |s| && s[i].level == s[j].level ==>
          s[i].id in arrival && s[j].id in arrival && arrival[s[i].id] > arrival[s[j].id])
  }

  ghost function RecOf(o: Order, arrival: map<nat, nat>): Rec {
    Rec(o, if o.id in arrival then arrival[o.id] else 0)
  }

  ghost function Records(s: seq<Order>, arrival: map<nat, nat>): set<Rec> {
    set i | 0 <= i < |s| :: RecOf(s[i], arrival)
  }

  ghost function Abs(s: Session): SpecBook {
    SpecBook(Records(s.book.bids, s.arrival), Records(s.book.asks, s.arrival), s.clock)
  }

  /** The back of the vector is the reference's choice. */
  lemma BackIsChosen(s: seq<Order>, arrival: map<nat, nat>, clock: nat, o: Order)
    requires SideOk(s, !o.isBuy) && TimeOk(s, arrival, clock) && s != [] && Crosses(o, s[|s| - 1])
    ensures Chosen(Records(s, arrival), o, RecOf(s[|s| - 1], arrival))
  {
  }

  lemma ReduceIsTaken(s: seq<Order>, arrival: map<nat, nat>, isBuy: bool, size: int)
    requires SideOk(s, isBuy) && s != []
    ensures Records(Reduce(s, size), arrival) == Taken(Records(s, arrival), RecOf(s[|s| - 1], arrival), size)
  {
    var n, s' := |s| - 1, Reduce(s, size);
    var best := RecOf(s[n], arrival);
    var taken := Taken(Records(s, arrival), best, size);
    forall r | r in Records(s', arrival) ensures r in taken {
      var i :| 0 <= i < |s'| && r == RecOf(s'[i], arrival);
      if i < n {
        assert RecOf(s[i], arrival) in Records(s, arrival);
        assert s[i].id != s[n].id;
      }
    }
    forall r | r in taken ensures r in Records(s', arrival) {
      if r in Records(s, arrival) && r != best {
        var i :| 0 <= i < |s| && r == RecOf(s[i], arrival);
        assert RecOf(s'[i], arrival) == r;
      } else {
        assert RecOf(s'[n], arrival) == r;
      }
    }
  }

  lemma ShrunkKeepsTime(s: seq<Order>, s': seq<Order>, arrival: map<nat, nat>, clock: nat)
    requires TimeOk(s, arrival, clock) && Shrunk(s, s')
    ensures TimeOk(s', arrival, clock)
  {
  }

  lemma SpecMatchCons(opp: set<Rec>, o: Order, q: int, r: Rec, t: Trade, rest: seq<Trade>, opp': set<Rec>, q': int)
    requires q > 0 && SpecTrade(opp, o, q, r, t)
    requires SpecMatch(Taken(opp, r, t.size), o, q - t.size, rest, opp', q')
    ensures SpecMatch(opp, o, q, [t] + rest, opp', q')
  {
    var ts := [t] + rest;
    assert ts[0] == t && ts[1..] == rest;
    assert SpecTrade(opp, o, q, r, ts[0])
           && SpecMatch(Taken(opp, r, ts[0].size), o, q - ts[0].size, ts[1..], opp', q');
  }

  /** The engine's trade with the back of the vector is the reference's. */
  lemma BackTradeIsSpec(s: seq<Order>, arrival: map<nat, nat>, clock: nat, o: Order, q: int)
    requires SideOk(s, !o.isBuy) && TimeOk(s, arrival, clock) && s != [] && q > 0 && Crosses(o, s[|s| - 1])
    ensures var best := s[|s| - 1];
            SpecTrade(Records(s, arrival), o, q, RecOf(best, arrival), MakeTrade(o, best, Min(best.qty, q)))
  {
    CrossesIffWilling(o, s[|s| - 1]);
    assert s[|s| - 1].qty > 0;
    BackIsChosen(s, arrival, clock, o);
    hide SideOk, TimeOk, Chosen, Records;
  }

  /** The loop stops where the reference does. */
  lemma StopIsSpec(s: seq<Order>, arrival: map<nat, nat>, o: Order, q: int)
    requires SideOk(s, !o.isBuy) && (s == [] || q <= 0 || !Crosses(o, s[|s| - 1]))
    ensures Match(s, o, q) == Matched(s, q, [])
    ensures SpecMatch(Records(s, arrival), o, q, [], Records(s, arrival), q)
  {
    if s != [] && q > 0 {
      forall r | r in Records(s, arrival) ensures !Crosses(o, r.order) {
        var i :| 0 <= i < |s| && r == RecOf(s[i], arrival);
        NoCrossBelowBest(s, o, i);
      }
    }
  }

  /** One turn of the loop: its trade, then what the rest of the loop does. */
  lemma MatchTurn(s: seq<Order>, o: Order, q: int)
    requires s != [] && q > 0 && Crosses(o, s[|s| - 1])
    ensures var best := s[|s| - 1];
            var size := Min(best.qty, q);
            var m, rest := Match(s, o, q), Match(Reduce(s, size), o, q - size);
            && m.trades == [MakeTrade(o, best, size)] + rest.trades && MakeTrade(o, best, size).size == size
            && m.opposite == rest.opposite && m.remaining == rest.remaining
  {
  }

  /** The matching loop on a sorted side is the reference matching on the set of its records. */
  lemma {:induction false} MatchRefines(s: seq<Order>, arrival: map<nat, nat>, clock: nat, o: Order, q: int)
    requires SideOk(s, !o.isBuy) && TimeOk(s, arrival, clock)
    ensures var m := Match(s, o, q);
            SpecMatch(Records(s, arrival), o, q, m.trades, Records(m.opposite, arrival), m.remaining)
    decreases |s| + if q > 0 then 1 else 0
  {
    hide TimeOk, Records, SpecTrade, SpecMatch, Taken, Shrunk, Match, Crosses, MakeTrade;
    if s == [] || q <= 0 || !Crosses(o, s[|s| - 1]) {
      hide SideOk;
      StopIsSpec(s, arrival, o, q);
    } else {
      var best := s[|s| - 1];
      assert best.qty > 0;
      hide SideOk;
      var size := Min(best.qty, q);
      var rest := Match(Reduce(s, size), o, q - size);
      BackTradeIsSpec(s, arrival, clock, o, q);
      ReduceIsTaken(s, arrival, !o.isBuy, size);
      ReduceOk(s, o, size);
      ShrunkKeepsTime(s, Reduce(s, size), arrival, clock);
      MatchTurn(s, o, q);
      assert |Reduce(s, size)| < |s| || q - size == 0;
      MatchRefines(Reduce(s, size), arrival, clock, o, q - size);
      SpecMatchCons(Records(s, arrival), o, q, RecOf(best, arrival), MakeTrade(o, best, size), rest.trades,
                    Records(rest.opposite, arrival), rest.remaining);
    }
  }

  // ----------------------------------------------------------------- whole runs

  lemma RecordsUnaffected(s: seq<Order>, arrival: map<nat, nat>, id: nat, clock: nat)
    requires !HasId(s, id)
    ensures Records(s, arrival[id := clock]) == Records(s, arrival)
  {
  }

  lemma TimeUnaffected(s: seq<Order>, arrival: map<nat, nat>, id: nat, clock: nat)
    requires !HasId(s, id) && TimeOk(s, arrival, clock)
    ensures TimeOk(s, arrival[id := clock], clock + 1)
    ensures forall i :: 0 <= i < |s| ==> arrival[id := clock][s[i].id] < clock
  {
  }

  /** lower_bound puts the newest order in front of its equals, where it is served last. */
  lemma InsertKeepsTime(s: seq<Order>, o: Order, arrival: map<nat, nat>, clock: nat)
    requires TimeOk(s, arrival, clock) && !HasId(s, o.id)
    ensures TimeOk(InsertAt(s, InsertPos(s, o.isBuy, o.level), o), arrival[o.id := clock], clock + 1)
  {
    TimeUnaffected(s, arrival, o.id, clock);
    var p := InsertPos(s, o.isBuy, o.level);
    assert forall i :: 0 <= i < p ==> s[i].level != o.level by {
      assert forall i :: 0 <= i < p ==> Worse(o.isBuy, s[i].level, o.level);
    }
    InsertedTime(s, p, o, arrival[o.id := clock], clock);
  }

  lemma InsertedTime(s: seq<Order>, p: nat, o: Order, arrival: map<nat, nat>, clock: nat)
    requires p <= |s| && o.id in arrival && arrival[o.id] == clock && TimeOk(s, arrival, clock + 1)
    requires forall i :: 0 <= i < |s| ==> arrival[s[i].id] < clock
    requires forall i :: 0 <= i < p ==> s[i].level != o.level
    ensures TimeOk(InsertAt(s, p, o), arrival, clock + 1)
  {
  }

  lemma InsertIsUnion(s: seq<Order>, p: nat, o: Order, arrival: map<nat, nat>, clock: nat)
    requires p <= |s| && !HasId(s, o.id)
    ensures Records(InsertAt(s, p, o), arrival[o.id := clock]) == Records(s, arrival) + {Rec(o, clock)}
  {
    RecordsUnaffected(s, arrival, o.id, clock);
    var s', arrival' := InsertAt(s, p, o), arrival[o.id := clock];
    forall r | r in Records(s, arrival') + {Rec(o, clock)} ensures r in Records(s', arrival') {
      if r in Records(s, arrival') {
        var i :| 0 <= i < |s| && r == RecOf(s[i], arrival');
        assert RecOf(s'[if i < p then i else i + 1], arrival') == r;
      } else {
        assert RecOf(s'[p], arrival') == r;
      }
    }
    forall r | r in Records(s', arrival') ensures r in Records(s, arrival') + {Rec(o, clock)} {
      var i :| 0 <= i < |s'| && r == RecOf(s'[i], arrival');
      if i != p {
        assert RecOf(s[if i < p then i else i - 1], arrival') == r;
      }
    }
  }

  lemma RemoveIsWithout(s: seq<Order>, isBuy: bool, arrival: map<nat, nat>, id: nat)
    requires SideOk(s, isBuy)
    ensures var p := FindId(s, id);
            Without(Records(s, arrival), id) == Records(if p < |s| then RemoveAt(s, p) else s, arrival)
  {
    var p := FindId(s, id);
    assert forall i :: p < i < |s| ==> s[i].id != id;
    hide SideOk, FindId;
    if p < |s| {
      RemoveOneRecord(s, p, arrival);
    } else {
      assert forall r :: r in Records(s, arrival) ==> r.order.id != id;
    }
  }

  /** Removing the only order with its id removes exactly its record. */
  lemma RemoveOneRecord(s: seq<Order>, p: nat, arrival: map<nat, nat>)
    requires p < |s| && forall i :: 0 <= i < |s| && i != p ==> s[i].id != s[p].id
    ensures Without(Records(s, arrival), s[p].id) == Records(RemoveAt(s, p), arrival)
  {
    var s' := RemoveAt(s, p);
    forall r | r in Without(Records(s, arrival), s[p].id) ensures r in Records(s', arrival) {
      var i :| 0 <= i < |s| && r == RecOf(s[i], arrival);
      assert RecOf(s'[if i < p then i else i - 1], arrival) == r;
    }
    forall r | r in Records(s', arrival) ensures r in Without(Records(s, arrival), s[p].id) {
      var i :| 0 <= i < |s'| && r == RecOf(s'[i], arrival);
      assert RecOf(s[if i < p then i else i + 1], arrival) == r;
    }
  }

  lemma RemoveKeepsTime(s: seq<Order>, p: nat, arrival: map<nat, nat>, clock: nat)
    requires TimeOk(s, arrival, clock) && p < |s|
    ensures TimeOk(RemoveAt(s, p), arrival, clock)
  {
  }

  ghost predicate SessionOk(s: Session) {
    && BookOk(s.book)
    && TimeOk(s.book.bids, s.arrival, s.clock) && TimeOk(s.book.asks, s.arrival, s.clock)
  }

  lemma HasIsDupe(s: Session, id: nat)
    ensures SpecHas(Abs(s), id) <==> IsDupe(s.book, id)
  {
    if i :| 0 <= i < |s.book.bids| && s.book.bids[i].id == id {
      assert RecOf(s.book.bids[i], s.arrival) in Abs(s).bids;
    }
    if i :| 0 <= i < |s.book.asks| && s.book.asks[i].id == id {
      assert RecOf(s.book.asks[i], s.arrival) in Abs(s).asks;
    }
  }

  /** The side matched against, after the step. */
  lemma AddRefinesOpposite(s: Session, o: Order, m: Matched)
    requires SessionOk(s) && !IsDupe(s.book, o.id) && m == Match(s.book.Side(!o.isBuy), o, o.qty)
    ensures TimeOk(m.opposite, s.arrival[o.id := s.clock], s.clock + 1)
    ensures SpecMatch(Records(s.book.Side(!o.isBuy), s.arrival), o, o.qty, m.trades,
                      Records(m.opposite, s.arrival[o.id := s.clock]), m.remaining)
  {
    var opp := s.book.Side(!o.isBuy);
    MatchRefines(opp, s.arrival, s.clock, o, o.qty);
    MatchShrinks(opp, o, o.qty);
    hide Match, SpecMatch;
    ShrunkIds(opp, m.opposite, o.id);
    RecordsUnaffected(m.opposite, s.arrival, o.id, s.clock);
    ShrunkKeepsTime(opp, m.opposite, s.arrival, s.clock);
    TimeUnaffected(m.opposite, s.arrival, o.id, s.clock);
  }

  /** The side on which a residual rests, after the step. */
  lemma AddRefinesSame(same: seq<Order>, o: Order, arrival: map<nat, nat>, clock: nat, left: int)
    requires TimeOk(same, arrival, clock) && !HasId(same, o.id)
    ensures var o', arrival' := o.(qty := left), arrival[o.id := clock];
            var same' := if left > 0 then InsertAt(same, InsertPos(same, o.isBuy, o.level), o') else same;
            && TimeOk(same', arrival', clock + 1)
            && Records(same', arrival') == Records(same, arrival) + if left > 0 then {Rec(o', clock)} else {}
  {
    hide TimeOk;
    if left > 0 {
      var o' := o.(qty := left);
      InsertIsUnion(same, InsertPos(same, o.isBuy, o.level), o', arrival, clock);
      InsertKeepsTime(same, o', arrival, clock);
    } else {
      RecordsUnaffected(same, arrival, o.id, clock);
      TimeUnaffected(same, arrival, o.id, clock);
    }
  }

  lemma AcceptOpposite(s: Session, o: Order, m: Matched, s': Session)
    requires SessionOk(s) && !IsDupe(s.book, o.id) && m == Match(s.book.Side(!o.isBuy), o, o.qty)
    requires s' == Step(s, AddOp(o))
    ensures TimeOk(s'.book.Side(!o.isBuy), s'.arrival, s'.clock)
    ensures SpecMatch(Records(s.book.Side(!o.isBuy), s.arrival), o, o.qty, m.trades,
                      Records(s'.book.Side(!o.isBuy), s'.arrival), m.remaining)
  {
    AddSides(s.book, o);
    AddRefinesOpposite(s, o, m);
    hide Match, SpecMatch, TimeOk, BookOk, Records, IsDupe;
  }

  lemma AcceptSame(s: Session, o: Order, m: Matched, s': Session)
    requires SessionOk(s) && !IsDupe(s.book, o.id) && m == Match(s.book.Side(!o.isBuy), o, o.qty)
    requires s' == Step(s, AddOp(o))
    ensures TimeOk(s'.book.Side(o.isBuy), s'.arrival, s'.clock)
    ensures Records(s'.book.Side(o.isBuy), s'.arrival) ==
            Records(s.book.Side(o.isBuy), s.arrival) +
            if m.remaining > 0 then {Rec(o.(qty := m.remaining), s.clock)} else {}
  {
    AddSides(s.book, o);
    AddRefinesSame(s.book.Side(o.isBuy), o, s.arrival, s.clock, m.remaining);
    hide Match, TimeOk, BookOk, Records, IsDupe, InsertAt, InsertPos;
  }

  /** One accepted order: the new session is in order and is the reference's answer. */
  lemma AcceptRefines(s: Session, o: Order, m: Matched, s': Session)
    requires SessionOk(s) && !IsDupe(s.book, o.id) && m == Match(s.book.Side(!o.isBuy), o, o.qty)
    requires s' == Step(s, AddOp(o))
    ensures TimeOk(s'.book.bids, s'.arrival, s'.clock) && TimeOk(s'.book.asks, s'.arrival, s'.clock)
    ensures SpecAccept(Abs(s), o, m.trades, Abs(s'), m.remaining)
  {
    AcceptOpposite(s, o, m, s');
    AcceptSame(s, o, m, s');
    assert s'.clock == s.clock + 1;
    hide BookOk, TimeOk, SpecMatch, IsDupe, Match, Records, Add, Step;
  }

  lemma AddRefines(s: Session, o: Order)
    requires SessionOk(s)
    ensures SessionOk(Step(s, AddOp(o)))
    ensures SpecStep(Abs(s), AddOp(o), Add(s.book, o).trades, Abs(Step(s, AddOp(o))))
  {
    HasIsDupe(s, o.id);
    AddKeepsBook(s.book, o);
    if !IsDupe(s.book, o.id) {
      var m := Match(s.book.Side(!o.isBuy), o, o.qty);
      AcceptRefines(s, o, m, Step(s, AddOp(o)));
      hide BookOk, TimeOk, SpecAccept, Records, IsDupe, SpecHas, Match;
      assert Add(s.book, o).trades == m.trades;
      assert SpecAdd(Abs(s), o, m.trades, Abs(Step(s, AddOp(o))));
    }
  }

  lemma CancelRefines(s: Session, id: nat)
    requires SessionOk(s)
    ensures SessionOk(Step(s, CancelOp(id)))
    ensures SpecStep(Abs(s), CancelOp(id), [], Abs(Step(s, CancelOp(id))))
  {
    var b := s.book;
    CancelKeepsBook(b, id);
    RemoveIsWithout(b.bids, true, s.arrival, id);
    RemoveIsWithout(b.asks, false, s.arrival, id);
    var i, j := FindId(b.bids, id), FindId(b.asks, id);
    if i < |b.bids| {
      RemoveKeepsTime(b.bids, i, s.arrival, s.clock);
    } else if j < |b.asks| {
      RemoveKeepsTime(b.asks, j, s.arrival, s.clock);
    }
  }

  /**
   * AddOrder and CancelOrder implement price-time priority over whole runs: the
   * engine's trades and book are a run of the reference, and so the only one.
   */
  lemma {:induction false} EngineRefinesPriceTime(ops: seq<Op>)
    ensures SessionOk(Run(ops))
    ensures SpecRun(ops, Run(ops).trades, Abs(Run(ops)))
    ensures forall t, b :: SpecRun(ops, t, b) ==> t == Run(ops).trades && b == Abs(Run(ops))
  {
    RunRefines(ops);
    forall t, b | SpecRun(ops, t, b) ensures t == Run(ops).trades && b == Abs(Run(ops)) {
      SpecRunDetermined(ops, t, b, Run(ops).trades, Abs(Run(ops)));
    }
  }

  lemma {:induction false} RunRefines(ops: seq<Op>)
    ensures SessionOk(Run(ops))
    ensures SpecRun(ops, Run(ops).trades, Abs(Run(ops)))
  {
    if ops != [] {
      RunRefines(Front(ops));
      StepRefines(Run(Front(ops)), Last(ops));
      hide SessionOk, SpecStep, Abs, Step;
      var s, s' := Run(Front(ops)), Run(ops);
      assert s' == Step(s, Last(ops));
      assert Front(s'.trades) == s.trades;
    }
  }

  lemma StepRefines(s: Session, op: Op)
    requires SessionOk(s)
    ensures SessionOk(Step(s, op))
    ensures |Step(s, op).trades| == |s.trades| + 1 && Front(Step(s, op).trades) == s.trades
    ensures SpecStep(Abs(s), op, Last(Step(s, op).trades), Abs(Step(s, op)))
  {
    match op {
      case AddOp(o) => AddRefines(s, o);
      case CancelOp(id) => CancelRefines(s, id);
    }
    hide SessionOk, SpecStep, Abs, Add, Cancel;
    assert Front(Step(s, op).trades) == s.trades;
  }
}

/**
 Whom a new limit order trades with, and at what price: every order that it takes sells at its own
 price, whatever the new order offers, and accounts pay and get just what these trades say.
 */
module LimitTrades {
  import opened Wrappers
  import opened Assets
  import opened Sums
  import opened Ledger
  import opened Fills
  import opened Matching
  import opened Trading
  import opened TradingSafety
  import opened TradingOutcomes
  import opened LimitBook

  /** The new order pays `paid` to the resting order `ask` and gets `got` from it. */
  datatype Trade = Trade(ask: OrderId, paid: nat, got: nat)

  // ----- the price of a trade -----

  /** The resting order sells all it has, for what that is worth at its price, rounded down. */
  predicate SellsOut(o: LimitOrder, t: Trade) {
    var (x, y) := (o.sellPrice.quote.amount, o.sellPrice.base.amount);
    t.got == o.forSale && t.paid * y <= t.got * x < t.paid * y + y
  }

  /** The resting order sells what is paid for at its price, rounded down. */
  predicate SellsSome(o: LimitOrder, t: Trade) {
    var (x, y) := (o.sellPrice.quote.amount, o.sellPrice.base.amount);
    t.got <= o.forSale && t.got * x <= t.paid * y < t.got * x + x
  }

  /** All trades are at the prices of the resting orders; all but the last sell these out. */
  ghost predicate AtRestingPrices(limits: map<OrderId, LimitOrder>, trades: seq<Trade>) {
    forall i | 0 <= i < |trades| ::
      && trades[i].ask in limits
      && (SellsOut(limits[trades[i].ask], trades[i]) || (i == |trades| - 1 && SellsSome(limits[trades[i].ask], trades[i])))
  }

  /** The orders that are taken, best price first and of equal prices the oldest first. */
  ghost predicate BestFirst(limits: map<OrderId, LimitOrder>, trades: seq<Trade>) {
    && (forall i | 0 <= i < |trades| :: trades[i].ask in limits)
    && forall i, j | 0 <= i < j < |trades| :: IsBetter(limits, trades[i].ask, trades[j].ask)
  }

  /** The same, by the index. */
  ghost predicate InIndexOrder(limits: map<OrderId, LimitOrder>, trades: seq<Trade>) {
    && (forall i | 0 <= i < |trades| :: trades[i].ask in limits)
    && forall i, j | 0 <= i < j < |trades| :: Before(limits, trades[i].ask, trades[j].ask)
  }

  function PaidIn(trades: seq<Trade>): nat {
    if trades == [] then 0 else trades[0].paid + PaidIn(trades[1..])
  }

  /** An order after it sold this much. */
  function RestOf(o: LimitOrder, sold: nat): LimitOrder
    requires sold <= o.forSale
  {
    o.(forSale := o.forSale - sold)
  }

  /** The order is left with what it has not sold, and is removed when that asks for nothing. */
  ghost predicate Remains(o: LimitOrder, sold: nat, id: OrderId, after: map<OrderId, LimitOrder>) {
    sold <= o.forSale && (if AsksNothing(RestOf(o, sold)) then id !in after else id in after && after[id] == RestOf(o, sold))
  }

  /** Each trade is with another order, which is left with what it has not sold. */
  ghost predicate Sold(before: map<OrderId, LimitOrder>, bid: OrderId, trades: seq<Trade>,
                       after: map<OrderId, LimitOrder>) {
    && (forall i | 0 <= i < |trades| ::
          trades[i].ask in before && trades[i].ask != bid && Remains(before[trades[i].ask], trades[i].got, trades[i].ask, after))
    && (forall i, j | 0 <= i < j < |trades| :: trades[i].ask != trades[j].ask)
  }

  ghost predicate Spares(before: map<OrderId, LimitOrder>, bid: OrderId, trades: seq<Trade>,
                         after: map<OrderId, LimitOrder>) {
    forall id <- before :: id != bid && (forall i | 0 <= i < |trades| :: trades[i].ask != id) ==>
      id in after && after[id] == before[id]
  }

  /** What the trades leave of the book; the new order stays with what it has not paid. */
  ghost predicate LeftBy(before: map<OrderId, LimitOrder>, bid: OrderId, trades: seq<Trade>,
                         after: map<OrderId, LimitOrder>)
    requires bid in before
  {
    && after.Keys <= before.Keys && Sold(before, bid, trades, after) && Spares(before, bid, trades, after)
    && if trades == [] then bid in after && after[bid] == before[bid] else Remains(before[bid], PaidIn(trades), bid, after)
  }

  // ----- what accounts get -----

  /** The bidder pays the seller, and the seller the bidder, each less the fee of the asset. */
  function TradeMoves(m: Measure, s: Books, bidder: AccountId, o: LimitOrder, t: Trade): int {
    var (x, y) := (o.sellPrice.quote.id, o.sellPrice.base.id);
    Payment(m, bidder, o.seller, x, t.paid, FeeOf(s, x, t.paid)) + Payment(m, o.seller, bidder, y, t.got, FeeOf(s, y, t.got))
  }

  function TradesMove(m: Measure, s: Books, bidder: AccountId, limits: map<OrderId, LimitOrder>, trades: seq<Trade>): int
    requires forall i | 0 <= i < |trades| :: trades[i].ask in limits
  {
    if trades == [] then 0
    else TradeMoves(m, s, bidder, limits[trades[0].ask], trades[0]) + TradesMove(m, s, bidder, limits, trades[1..])
  }

  // ----- one match -----

  /** Only one order of the book changes. */
  ghost predicate OthersStay(before: map<OrderId, LimitOrder>, id: OrderId, after: map<OrderId, LimitOrder>) {
    && (forall i <- after :: i in before)
    && (forall i <- before :: i != id ==> i in after && after[i] == before[i])
  }

  lemma FilledRemains(s: Books, id: OrderId, pays: nat, receives: nat)
    requires id in s.limits && pays <= s.limits[id].forSale && FillLimit(s, id, pays, receives).Some?
    ensures var s' := FillLimit(s, id, pays, receives).value.0;
            Remains(s.limits[id], pays, id, s'.limits) && OthersStay(s.limits, id, s'.limits)
  {
    hide FillLimit, AsksNothing;
    FillLimitFrame(s, id, pays, receives);
  }

  lemma TradeLeaves(before: map<OrderId, LimitOrder>, bid: OrderId, mid: map<OrderId, LimitOrder>, t: Trade,
                    after: map<OrderId, LimitOrder>)
    requires bid in before && t.ask in mid && t.ask != bid
    requires Remains(before[bid], t.paid, bid, mid) && OthersStay(before, bid, mid)
    requires Remains(mid[t.ask], t.got, t.ask, after) && OthersStay(mid, t.ask, after)
    ensures LeftBy(before, bid, [t], after)
  {
    hide AsksNothing;
    assert PaidIn([t]) == t.paid;
    assert [t][0].ask == t.ask;
  }

  lemma GoneWhenSold(o: LimitOrder, sold: nat, id: OrderId, after: map<OrderId, LimitOrder>)
    requires Remains(o, sold, id, after) && id in after
    ensures sold < o.forSale
  {
  }

  /** A match at the price of the resting order is a trade at that price. */
  lemma MatchIsTrade(s: Books, bid: OrderId, ask: OrderId) returns (t: Trade)
    requires bid in s.limits && ask in s.limits && CanMatchLimits(s, bid, ask, s.limits[ask].sellPrice)
    requires MatchLimits(s, bid, ask, s.limits[ask].sellPrice).Some?
    ensures var p := s.limits[ask].sellPrice;
            var s' := MatchLimits(s, bid, ask, p).value.0;
            && LimitAmounts(s, bid, ask, p) == Some((t.paid, t.got)) && t.ask == ask
            && AtRestingPrices(s.limits, [t]) && (bid in s'.limits ==> SellsOut(s.limits[ask], t))
            && LeftBy(s.limits, bid, [t], s'.limits)
  {
    hide FillLimit, LimitAmounts, LeftBy, SellsOut, SellsSome, Remains;
    var (a, b) := (s.limits[ask], s.limits[bid]);
    var (paid, got) := LimitAmounts(s, bid, ask, a.sellPrice).value;
    t := Trade(ask, paid, got);
    MatchAtRest(s, bid, ask, t);
    var s1 := FillLimit(s, bid, paid, got).value.0;
    FilledRemains(s, bid, paid, got);
    var s2 := FillLimit(s1, ask, got, paid).value.0;
    FilledRemains(s1, ask, got, paid);
    TradeLeaves(s.limits, bid, s1.limits, t, s2.limits);
    if bid in s2.limits { GoneWhenSold(b, paid, bid, s1.limits); }
  }

  lemma MatchAtRest(s: Books, bid: OrderId, ask: OrderId, t: Trade)
    requires bid in s.limits && ask in s.limits && CanMatchLimits(s, bid, ask, s.limits[ask].sellPrice)
    requires LimitAmounts(s, bid, ask, s.limits[ask].sellPrice) == Some((t.paid, t.got))
    ensures SellsOut(s.limits[ask], t) || (t.paid == s.limits[bid].forSale && SellsSome(s.limits[ask], t))
  {
    hide MatchAmounts;
    var (a, b) := (s.limits[ask], s.limits[bid]);
    MatchRounding(b.forSale, b.sellPrice.base.id, a.forSale, a.sellPrice.base.id, a.sellPrice);
  }

  /** One turn of the loop is a trade with the first of the candidates, at the price of that one. */
  lemma TakeIsTrade(s: Books, bid: OrderId) returns (t: Trade)
    requires bid in s.limits && Candidates(s.limits, bid) != {} && Take(s, bid).Some?
    ensures IsFirst(s.limits, Candidates(s.limits, bid), t.ask) && t.ask in s.limits
    ensures var (s', stays) := Take(s, bid).value;
            && AtRestingPrices(s.limits, [t]) && (stays ==> SellsOut(s.limits[t.ask], t) && t.ask !in s'.limits)
            && LeftBy(s.limits, bid, [t], s'.limits) && SameAssets(s, s')
            && forall m :: Total(m, s') == Total(m, s) + TradeMoves(m, s, s.limits[bid].seller, s.limits[t.ask], t)
  {
    hide InRange, MatchLimits, IsFirst, CanMatchLimits, Total, LeftBy, SellsOut, SellsSome;
    var ask := First(s.limits, Candidates(s.limits, bid));
    FirstIsCandidate(s.limits, Candidates(s.limits, bid), ask);
    CandidateMatches(s, bid, ask);
    var p := s.limits[ask].sellPrice;
    MatchLimitsFrame(s, bid, ask, p);
    t := MatchIsTrade(s, bid, ask);
    forall m
      ensures Total(m, MatchLimits(s, bid, ask, p).value.0) ==
              Total(m, s) + TradeMoves(m, s, s.limits[bid].seller, s.limits[ask], t)
    {
      TradeIsPaid(m, s, bid, ask, t);
    }
  }

  lemma TradeIsPaid(m: Measure, s: Books, bid: OrderId, ask: OrderId, t: Trade)
    requires bid in s.limits && ask in s.limits && CanMatchLimits(s, bid, ask, s.limits[ask].sellPrice)
    requires MatchLimits(s, bid, ask, s.limits[ask].sellPrice).Some?
    requires LimitAmounts(s, bid, ask, s.limits[ask].sellPrice) == Some((t.paid, t.got))
    ensures Total(m, MatchLimits(s, bid, ask, s.limits[ask].sellPrice).value.0) ==
            Total(m, s) + TradeMoves(m, s, s.limits[bid].seller, s.limits[ask], t)
  {
    hide Total, MatchLimits, LimitAmounts, FeeOf;
    MatchLimitsMoves(m, s, bid, ask, s.limits[ask].sellPrice);
  }

  // ----- all matches of a new order -----

  /** The trades of a new order with a book: with the orders in its range, in index order, at their prices. */
  ghost predicate Trades(before: map<OrderId, LimitOrder>, bid: OrderId, trades: seq<Trade>,
                         after: map<OrderId, LimitOrder>)
    requires bid in before
  {
    && InIndexOrder(before, trades) && AtRestingPrices(before, trades) && LeftBy(before, bid, trades, after)
    && forall i | 0 <= i < |trades| :: trades[i].ask in Candidates(before, bid)
  }

  /** A first trade took an order out of the book, and left the others as they were. */
  ghost predicate TradedFirst(before: map<OrderId, LimitOrder>, bid: OrderId, t: Trade, mid: map<OrderId, LimitOrder>) {
    && bid in before && bid in mid && t.ask in before && t.ask !in mid && t.ask != bid
    && Remains(before[t.ask], t.got, t.ask, mid) && Remains(before[bid], t.paid, bid, mid)
    && mid.Keys <= before.Keys
    && (forall id <- before :: id != bid && id != t.ask ==> id in mid && mid[id] == before[id])
  }

  lemma TradedFirstOnly(before: map<OrderId, LimitOrder>, bid: OrderId, t: Trade, mid: map<OrderId, LimitOrder>)
    requires bid in before && bid in mid && t.ask !in mid && LeftBy(before, bid, [t], mid)
    ensures TradedFirst(before, bid, t, mid)
  {
    hide AsksNothing;
    assert PaidIn([t]) == t.paid && [t][0] == t;
  }

  lemma IndexOrderGrows(before: map<OrderId, LimitOrder>, bid: OrderId, t: Trade, mid: map<OrderId, LimitOrder>,
                        trades: seq<Trade>)
    requires TradedFirst(before, bid, t, mid) && IsFirst(before, Candidates(before, bid), t.ask)
    requires InIndexOrder(mid, trades) && forall i | 0 <= i < |trades| :: trades[i].ask in Candidates(mid, bid)
    ensures InIndexOrder(before, [t] + trades)
    ensures forall i | 0 <= i < |[t] + trades| :: ([t] + trades)[i].ask in Candidates(before, bid)
  {
    hide AsksNothing, Before, InRange;
    var all := [t] + trades;
    forall i | 0 <= i < |all|
      ensures all[i].ask in Candidates(before, bid)
      ensures i > 0 ==> all[i] == trades[i - 1] && all[i].ask in mid && all[i].ask != t.ask
    {
      if i > 0 {
        assert all[i] == trades[i - 1];
        BidIsNoCandidate(mid, bid);
      }
    }
    forall i, j | 0 <= i < j < |all|
      ensures Before(before, all[i].ask, all[j].ask)
    {
      if i > 0 {
        assert Before(mid, trades[i - 1].ask, trades[j - 1].ask);
        BidIsNoCandidate(mid, bid);
        BeforeAlike(mid, before, all[i].ask, all[j].ask);
      }
    }
  }

  lemma PricesGrow(before: map<OrderId, LimitOrder>, bid: OrderId, t: Trade, mid: map<OrderId, LimitOrder>,
                   trades: seq<Trade>)
    requires TradedFirst(before, bid, t, mid) && SellsOut(before[t.ask], t)
    requires AtRestingPrices(mid, trades) && forall i | 0 <= i < |trades| :: trades[i].ask != bid
    ensures AtRestingPrices(before, [t] + trades)
  {
    hide Remains, SellsOut, SellsSome;
    var all := [t] + trades;
    forall i | 0 <= i < |all|
      ensures all[i].ask in before
      ensures SellsOut(before[all[i].ask], all[i]) || (i == |all| - 1 && SellsSome(before[all[i].ask], all[i]))
    {
      if i > 0 { assert all[i] == trades[i - 1]; }
    }
  }

  lemma SoldGrows(before: map<OrderId, LimitOrder>, bid: OrderId, t: Trade, mid: map<OrderId, LimitOrder>,
                  trades: seq<Trade>, after: map<OrderId, LimitOrder>)
    requires TradedFirst(before, bid, t, mid) && Sold(mid, bid, trades, after) && after.Keys <= mid.Keys
    ensures Sold(before, bid, [t] + trades, after)
  {
    hide RestOf, AsksNothing;
    var all := [t] + trades;
    forall i | 0 <= i < |all|
      ensures all[i].ask in before && all[i].ask != bid && Remains(before[all[i].ask], all[i].got, all[i].ask, after)
      ensures i > 0 ==> all[i] == trades[i - 1] && all[i].ask != t.ask
    {
      if i > 0 { assert all[i] == trades[i - 1]; }
    }
  }

  lemma SparesGrow(before: map<OrderId, LimitOrder>, bid: OrderId, t: Trade, mid: map<OrderId, LimitOrder>,
                   trades: seq<Trade>, after: map<OrderId, LimitOrder>)
    requires TradedFirst(before, bid, t, mid) && Spares(mid, bid, trades, after)
    ensures Spares(before, bid, [t] + trades, after)
  {
    hide Remains;
    var all := [t] + trades;
    forall id <- before | id != bid && forall i | 0 <= i < |all| :: all[i].ask != id
      ensures id in after && after[id] == before[id]
    {
      assert id != all[0].ask;
      forall i | 0 <= i < |trades|
        ensures trades[i].ask != id
      {
        assert all[i + 1].ask != id;
      }
    }
  }

  lemma LeftByGrows(before: map<OrderId, LimitOrder>, bid: OrderId, t: Trade, mid: map<OrderId, LimitOrder>,
                    trades: seq<Trade>, after: map<OrderId, LimitOrder>)
    requires TradedFirst(before, bid, t, mid) && LeftBy(mid, bid, trades, after)
    ensures LeftBy(before, bid, [t] + trades, after)
  {
    hide Remains, Sold, Spares;
    SoldGrows(before, bid, t, mid, trades, after);
    SparesGrow(before, bid, t, mid, trades, after);
    BidRemains(before, bid, t, mid, trades, after);
    assert PaidIn([t] + trades) == t.paid + PaidIn(trades) by { assert ([t] + trades)[1..] == trades; }
  }

  lemma {:induction false} BidRemains(before: map<OrderId, LimitOrder>, bid: OrderId, t: Trade,
                                      mid: map<OrderId, LimitOrder>,
                   trades: seq<Trade>, after: map<OrderId, LimitOrder>)
    requires TradedFirst(before, bid, t, mid) && LeftBy(mid, bid, trades, after)
    ensures Remains(before[bid], t.paid + PaidIn(trades), bid, after)
  {
    hide Sold, Spares, AsksNothing;
    if trades != [] { RemainsAfter(before[bid], t.paid, mid[bid], PaidIn(trades), bid, after); }
  }

  lemma RemainsAfter(o: LimitOrder, sold: nat, rest: LimitOrder, more: nat, id: OrderId, after: map<OrderId, LimitOrder>)
    requires sold <= o.forSale && rest == RestOf(o, sold) && Remains(rest, more, id, after)
    ensures Remains(o, sold + more, id, after)
  {
  }

  lemma TradesGrow(before: map<OrderId, LimitOrder>, bid: OrderId, t: Trade, mid: map<OrderId, LimitOrder>,
                   trades: seq<Trade>, after: map<OrderId, LimitOrder>)
    requires TradedFirst(before, bid, t, mid) && IsFirst(before, Candidates(before, bid), t.ask)
    requires SellsOut(before[t.ask], t)
    requires Trades(mid, bid, trades, after)
    ensures Trades(before, bid, [t] + trades, after)
  {
    hide TradedFirst, LeftBy, InIndexOrder, AtRestingPrices, SellsOut, IsFirst;
    TradedFirstHas(before, bid, t, mid);
    TradesAreOthers(mid, bid, trades, after);
    IndexOrderGrows(before, bid, t, mid, trades);
    PricesGrow(before, bid, t, mid, trades);
    LeftByGrows(before, bid, t, mid, trades, after);
  }

  lemma TradedFirstHas(before: map<OrderId, LimitOrder>, bid: OrderId, t: Trade, mid: map<OrderId, LimitOrder>)
    requires TradedFirst(before, bid, t, mid)
    ensures bid in before && bid in mid && t.ask in before
  {
    hide Remains;
  }

  lemma TradesAreOthers(before: map<OrderId, LimitOrder>, bid: OrderId, trades: seq<Trade>,
                        after: map<OrderId, LimitOrder>)
    requires bid in before && Trades(before, bid, trades, after)
    ensures forall i | 0 <= i < |trades| :: trades[i].ask != bid && trades[i].ask in before
  {
    hide Remains, Spares;
  }

  lemma NoTrades(s: Books, bid: OrderId)
    requires bid in s.limits
    ensures Trades(s.limits, bid, [], s.limits)
  {
  }

  lemma LastTrade(limits: map<OrderId, LimitOrder>, bid: OrderId, t: Trade, after: map<OrderId, LimitOrder>)
    requires bid in limits && IsFirst(limits, Candidates(limits, bid), t.ask) && AtRestingPrices(limits, [t])
    requires LeftBy(limits, bid, [t], after)
    ensures Trades(limits, bid, [t], after)
  {
    hide LeftBy, InRange, SellsOut, SellsSome;
  }

  /** What the rest of the trades move, at the fees of the books and the orders before the first. */
  lemma {:induction false} TradesMoveAlike(m: Measure, s: Books, s1: Books, bidder: AccountId, trades: seq<Trade>)
    requires SameAssets(s, s1)
    requires forall i | 0 <= i < |trades| ::
               trades[i].ask in s.limits && trades[i].ask in s1.limits && s.limits[trades[i].ask] == s1.limits[trades[i].ask]
    ensures TradesMove(m, s1, bidder, s1.limits, trades) == TradesMove(m, s, bidder, s.limits, trades)
  {
    hide FeeOf, SameAssets;
    if trades == [] {
    } else {
      var t, o := trades[0], s.limits[trades[0].ask];
      FeesStay(s, s1, o.sellPrice.quote.id, t.paid);
      FeesStay(s, s1, o.sellPrice.base.id, t.got);
      forall i | 0 <= i < |trades[1..]|
        ensures trades[1..][i] == trades[i + 1]
      {
      }
      TradesMoveAlike(m, s, s1, bidder, trades[1..]);
    }
  }

  /** The loop makes a sequence of such trades, and every measure moves by just what they pay. */
  lemma {:induction false} ConsumeTrades(s: Books, bid: OrderId) returns (trades: seq<Trade>)
    requires bid in s.limits && Consume(s, bid).Some?
    ensures var s' := Consume(s, bid).value;
            && Trades(s.limits, bid, trades, s'.limits) && SameAssets(s, s')
            && forall m :: Total(m, s') == Total(m, s) + TradesMove(m, s, s.limits[bid].seller, s.limits, trades)
    decreases |s.limits|
  {
    hide InRange, Take, LeftBy, AtRestingPrices, SellsOut, Total, TradeMoves, SameAssets;
    if Candidates(s.limits, bid) == {} {
      trades := [];
      NoTrades(s, bid);
      AssetsStay(s);
    } else {
      var t := TakeIsTrade(s, bid);
      var (s1, stays) := Take(s, bid).value;
      if stays {
        var rest := ConsumeTrades(s1, bid);
        trades := [t] + rest;
        MoreTrades(s, bid, t, s1, rest, Consume(s1, bid).value);
      } else {
        trades := [t];
        LastTrade(s.limits, bid, t, s1.limits);
        assert trades[1..] == [];
      }
    }
  }

  lemma SellerStays(before: map<OrderId, LimitOrder>, bid: OrderId, t: Trade, mid: map<OrderId, LimitOrder>)
    requires TradedFirst(before, bid, t, mid)
    ensures mid[bid].seller == before[bid].seller
    ensures forall id <- mid :: id != bid ==> id in before && before[id] == mid[id]
  {
  }

  lemma {:induction false} MoreTrades(s: Books, bid: OrderId, t: Trade, s1: Books, rest: seq<Trade>, s': Books)
    requires bid in s.limits && bid in s1.limits && IsFirst(s.limits, Candidates(s.limits, bid), t.ask)
    requires t.ask in s.limits
    requires t.ask !in s1.limits && SellsOut(s.limits[t.ask], t) && LeftBy(s.limits, bid, [t], s1.limits)
    requires SameAssets(s, s1)
    requires Trades(s1.limits, bid, rest, s'.limits) && SameAssets(s1, s')
    requires forall m :: Total(m, s1) == Total(m, s) + TradeMoves(m, s, s.limits[bid].seller, s.limits[t.ask], t)
    requires forall m :: Total(m, s') == Total(m, s1) + TradesMove(m, s1, s1.limits[bid].seller, s1.limits, rest)
    ensures Trades(s.limits, bid, [t] + rest, s'.limits) && SameAssets(s, s')
    ensures forall m :: Total(m, s') == Total(m, s) + TradesMove(m, s, s.limits[bid].seller, s.limits, [t] + rest)
  {
    hide InRange, LeftBy, AtRestingPrices, SellsOut, Total, TradeMoves, SameAssets, Trades, TradedFirst, IsFirst;
    TradedFirstOnly(s.limits, bid, t, s1.limits);
    TradesGrow(s.limits, bid, t, s1.limits, rest, s'.limits);
    SameAssetsTwice(s, s1, s');
    SellerStays(s.limits, bid, t, s1.limits);
    TradesAreOthers(s1.limits, bid, rest, s'.limits);
    TradesAreOthers(s.limits, bid, [t] + rest, s'.limits);
    assert ([t] + rest)[1..] == rest;
    forall m
      ensures Total(m, s') == Total(m, s) + TradesMove(m, s, s.limits[bid].seller, s.limits, [t] + rest)
    {
      TradesMoveAlike(m, s, s1, s.limits[bid].seller, rest);
    }
  }

  // ----- placing an order -----

  lemma WithPlaced(s: Books, id: OrderId, o: LimitOrder, trades: seq<Trade>, after: map<OrderId, LimitOrder>)
    requires id !in s.limits && Trades(s.limits[id := o], id, trades, after)
    ensures BestFirst(s.limits, trades) && AtRestingPrices(s.limits, trades)
    ensures forall i | 0 <= i < |trades| :: Tradable(o.sellPrice, s.limits[trades[i].ask].sellPrice)
  {
    hide InRange, LeftBy, SellsOut, SellsSome, Before, IsBetter, Crosses, BeyondReach;
    var placed := s.limits[id := o];
    TradesAreOthers(placed, id, trades, after);
    forall i | 0 <= i < |trades|
      ensures trades[i].ask in s.limits && Tradable(o.sellPrice, s.limits[trades[i].ask].sellPrice)
    {
      CrossingIsCandidate(placed, id, trades[i].ask);
    }
    forall i, j | 0 <= i < j < |trades|
      ensures IsBetter(s.limits, trades[i].ask, trades[j].ask)
    {
      TradableIsOneMarket(o.sellPrice, s.limits[trades[i].ask].sellPrice, s.limits[trades[j].ask].sellPrice);
      BeforeIsBetter(s.limits, trades[i].ask, trades[j].ask);
      BeforeAlike(placed, s.limits, trades[i].ask, trades[j].ask);
    }
  }

  /**
   A new order trades with tradable orders of the book, the best and oldest first and each at its own price,
   until it is gone or none is left; these trades are all that happens to the book, and all that
   anyone has more or less of afterwards.
   */
  lemma CreateTrades(s: Books, id: OrderId, o: LimitOrder, keep: bool) returns (trades: seq<Trade>)
    requires Create(s, id, o, keep).Some?
    ensures BestFirst(s.limits, trades) && AtRestingPrices(s.limits, trades)
    ensures forall i | 0 <= i < |trades| :: Tradable(o.sellPrice, s.limits[trades[i].ask].sellPrice)
    ensures var s' := Create(s, id, o, keep).value;
            && LeftBy(s.limits[id := o], id, trades, s'.limits)
            && (id in s'.limits ==> forall a <- s'.limits :: !Tradable(o.sellPrice, s'.limits[a].sellPrice))
            && forall u, a :: WealthOf(s', u, a) == WealthOf(s, u, a) + TradesMove(Wealth(u, a), s, o.seller, s.limits, trades)
  {
    hide Consume, PlacedLimit, Trades, AtRestingPrices, LeftBy, Total, TradeMoves, WealthOf, Tradable, TradesMove,
         SameAssets;
    PlacedLimitFrame(s, id, o);
    var s1, s' := PlacedLimit(s, id, o).value, Create(s, id, o, keep).value;
    trades := ConsumeTrades(s1, id);
    TradesAreOthers(s1.limits, id, trades, s'.limits);
    WithPlaced(s, id, o, trades, s'.limits);
    AssetsStay(s);
    PlacedAssets(s, id, o);
    forall u, a
      ensures WealthOf(s', u, a) == WealthOf(s, u, a) + TradesMove(Wealth(u, a), s, o.seller, s.limits, trades)
    {
      PlaceConserves(Wealth(u, a), s, id, o);
      WealthIsTotal(s, u, a);
      WealthIsTotal(s', u, a);
      TradesMoveAlike(Wealth(u, a), s, s1, o.seller, trades);
    }
    assert LeftBy(s.limits[id := o], id, trades, s'.limits) by { TradesLeave(s1.limits, id, trades, s'.limits); }
    if id in s'.limits { NothingTradable(s, id, o, s1, s'); }
  }

  lemma PlacedAssets(s: Books, id: OrderId, o: LimitOrder)
    requires PlacedLimit(s, id, o).Some?
    ensures SameAssets(s, PlacedLimit(s, id, o).value)
  {
    hide PlacedLimit;
    PlacedLimitFrame(s, id, o);
  }

  lemma TradesLeave(before: map<OrderId, LimitOrder>, bid: OrderId, trades: seq<Trade>, after: map<OrderId, LimitOrder>)
    requires bid in before && Trades(before, bid, trades, after)
    ensures LeftBy(before, bid, trades, after)
  {
  }

  lemma {:induction false} NothingTradable(s: Books, id: OrderId, o: LimitOrder, s1: Books, s': Books)
    requires id !in s.limits && s1.limits == s.limits[id := o] && Consume(s1, id) == Some(s') && id in s'.limits
    ensures forall a <- s'.limits :: !Tradable(o.sellPrice, s'.limits[a].sellPrice)
  {
    hide Consume, InRange, BeyondReach, Crosses;
    ConsumeIsConsumed(s1, id);
    forall a <- s'.limits
      ensures !Tradable(o.sellPrice, s'.limits[a].sellPrice)
    {
      CrossingIsCandidate(s1.limits, id, a);
    }
  }

  /** An order that must be filled goes through when one that may stay would not stay, and then does the same. */
  lemma FillOrKill(s: Books, id: OrderId, o: LimitOrder)
    ensures Create(s, id, o, false).Some? <==>
              Create(s, id, o, true).Some? && id !in Create(s, id, o, true).value.limits
    ensures Create(s, id, o, false).Some? ==> Create(s, id, o, false) == Create(s, id, o, true)
  {
    hide Consume, PlacedLimit, IsPlain;
  }

  /** A trade never gives the new order less than its own price asks for, but for the rounding of one unit. */
  lemma LimitIsHonoured(bid: MarketPrice, o: LimitOrder, t: Trade)
    requires Tradable(bid, o.sellPrice) && (SellsOut(o, t) || SellsSome(o, t))
    ensures t.paid * bid.quote.amount < (t.got + 1) * bid.base.amount
    ensures SellsOut(o, t) ==> t.paid * bid.quote.amount <= t.got * bid.base.amount
  {
    hide BeyondReach;
    var (x, y) := (o.sellPrice.quote.amount, o.sellPrice.base.amount);
    var (b, q) := (bid.base.amount, bid.quote.amount);
    assert x * q <= b * y;
    if SellsOut(o, t) {
      BetterRate(t.paid, t.got, x, y, b, q);
      assert t.got * b < (t.got + 1) * b;
    } else {
      StrictlyBetterRate(t.paid, t.got + 1, x, y, b, q);
    }
  }

  lemma BetterRate(paid: nat, got: nat, x: int, y: int, b: int, q: int)
    requires x > 0 && y > 0 && b > 0 && q > 0 && x * q <= b * y && paid * y <= got * x
    ensures paid * q <= got * b
  {
    assert (paid * q) * y == (paid * y) * q;
    ProductGrows(paid * y, got * x, q);
    ProductGrows(x * q, b * y, got);
    assert (got * x) * q == (x * q) * got;
    assert (b * y) * got == (got * b) * y;
    CancelProduct(paid * q, got * b, y);
  }

  lemma StrictlyBetterRate(paid: nat, got: nat, x: int, y: int, b: int, q: int)
    requires x > 0 && y > 0 && b > 0 && q > 0 && x * q <= b * y && paid * y < got * x
    ensures paid * q < got * b
  {
    assert (paid * q) * y == (paid * y) * q;
    MultiplesApart(paid * y, got * x, q);
    ProductGrows(x * q, b * y, got);
    assert (got * x) * q == (x * q) * got;
    assert (b * y) * got == (got * b) * y;
    if paid * q >= got * b { ProductGrows(got * b, paid * q, y); }
  }

  // ----- when placing an order goes through -----

  /** An order as it is created, or what is left of one; amounts are within the largest supply. */
  predicate Bounded(o: LimitOrder) {
    && 0 < o.forSale <= o.sellPrice.base.amount <= MAX_SHARE_SUPPLY
    && o.sellPrice.quote.amount <= MAX_SHARE_SUPPLY
  }

  lemma AtMostWhole(n: nat, x: nat, y: nat)
    requires n <= y && 0 < x <= MAX_SHARE_SUPPLY && y > 0
    ensures n * x < (MAX_SHARE_SUPPLY + 1) * y
  {
    ProductGrows(n, y, x);
    ProductGrows(x, MAX_SHARE_SUPPLY, y);
  }

  lemma FillGoesThrough(s: Books, id: OrderId, pays: nat, receives: nat)
    requires id in s.limits && pays <= s.limits[id].forSale && Bounded(s.limits[id])
    requires FairFees(s, s.limits[id].sellPrice.quote.id)
    ensures FillLimit(s, id, pays, receives).Some?
  {
    hide FillLimit, FeeOf;
    var o := s.limits[id];
    FillLimitSucceeds(s, id, pays, receives);
    FairFeesFit(s, o.sellPrice.quote.id, receives);
    AtMostWhole(o.forSale - pays, o.sellPrice.quote.amount, o.sellPrice.base.amount);
  }

  lemma AmountsFit(usd: nat, usdAsset: AssetId, core: nat, coreAsset: AssetId, p: MarketPrice)
    requires p.base.id == coreAsset && p.quote.id == usdAsset
    requires core <= p.base.amount <= MAX_SHARE_SUPPLY && p.quote.amount <= MAX_SHARE_SUPPLY
    ensures MatchAmounts(usd, usdAsset, core, coreAsset, p).Some?
  {
    hide Times;
    var (x, y) := (p.quote.amount, p.base.amount);
    AtMostWhole(core, x, y);
    TimesSucceeds(core, coreAsset, p);
    TimesRoundsDown(core, coreAsset, p);
    var worth := Times(core, coreAsset, p).value;
    if usd <= worth {
      ProductGrows(usd, worth, y);
      ProductGrows(core, MAX_SHARE_SUPPLY, x);
      TimesSucceeds(usd, usdAsset, p);
    }
  }

  lemma MatchGoesThrough(s: Books, bid: OrderId, ask: OrderId)
    requires bid in s.limits && ask in s.limits && CanMatchLimits(s, bid, ask, s.limits[ask].sellPrice)
    requires Bounded(s.limits[bid]) && Bounded(s.limits[ask])
    requires FairFees(s, s.limits[bid].sellPrice.quote.id) && FairFees(s, s.limits[ask].sellPrice.quote.id)
    ensures MatchLimits(s, bid, ask, s.limits[ask].sellPrice).Some?
  {
    hide FillLimit, MatchAmounts, FairFees;
    var (b, a) := (s.limits[bid], s.limits[ask]);
    AmountsFit(b.forSale, b.sellPrice.base.id, a.forSale, a.sellPrice.base.id, a.sellPrice);
    var (paid, got) := LimitAmounts(s, bid, ask, a.sellPrice).value;
    FillGoesThrough(s, bid, paid, got);
    FillLimitFrame(s, bid, paid, got);
    var s1 := FillLimit(s, bid, paid, got).value.0;
    FairFeesKept(s, s1, a.sellPrice.quote.id);
    FillGoesThrough(s1, ask, got, paid);
  }

  lemma TakeGoesThrough(s: Books, bid: OrderId)
    requires bid in s.limits && Candidates(s.limits, bid) != {} && forall id <- s.limits :: Bounded(s.limits[id])
    requires FairFees(s, s.limits[bid].sellPrice.base.id) && FairFees(s, s.limits[bid].sellPrice.quote.id)
    ensures Take(s, bid).Some?
  {
    hide InRange, MatchLimits, IsFirst, FairFees, Bounded;
    var ask := First(s.limits, Candidates(s.limits, bid));
    FirstIsCandidate(s.limits, Candidates(s.limits, bid), ask);
    CandidateMatches(s, bid, ask);
    MatchGoesThrough(s, bid, ask);
  }

  lemma {:induction false} ConsumeGoesThrough(s: Books, bid: OrderId)
    requires bid in s.limits && forall id <- s.limits :: Bounded(s.limits[id])
    requires FairFees(s, s.limits[bid].sellPrice.base.id) && FairFees(s, s.limits[bid].sellPrice.quote.id)
    ensures Consume(s, bid).Some?
    decreases |s.limits|
  {
    hide InRange, Take, IsFirst, FairFees, Touched;
    if Candidates(s.limits, bid) == {} {
    } else {
      TakeGoesThrough(s, bid);
      var (s1, stays) := Take(s, bid).value;
      var ask := TakeTakesFirst(s, bid);
      if stays {
        FairFeesKept(s, s1, s.limits[bid].sellPrice.base.id);
        FairFeesKept(s, s1, s.limits[bid].sellPrice.quote.id);
        ConsumeGoesThrough(s1, bid);
      }
    }
  }

  /**
   Among orders of amounts within the largest supply and with fair fees, an order
   that may stay always goes through then.
   */
  lemma CreateGoesThrough(s: Books, id: OrderId, o: LimitOrder)
    requires Bounded(o) && forall i <- s.limits :: Bounded(s.limits[i])
    requires FairFees(s, o.sellPrice.base.id) && FairFees(s, o.sellPrice.quote.id)
    ensures Create(s, id, o, true).Some? <==>
              && s.assets[o.sellPrice.base.id].bit.None? && s.assets[o.sellPrice.quote.id].bit.None?
              && id !in s.limits && o.forSale == o.sellPrice.base.amount
              && BalanceOf(s, o.seller, o.sellPrice.base.id) >= o.forSale
  {
    hide PlacedLimit, Consume, FairFees;
    PlaceOutcome(s, id, o);
    assert o.sellPrice.base.id in s.assets && o.sellPrice.quote.id in s.assets by { FairAssets(s, o); }
    if PlacedLimit(s, id, o).Some? {
      var s1 := PlacedLimit(s, id, o).value;
      PlacedLimitFrame(s, id, o);
      PlacedAssets(s, id, o);
      FairFeesKept(s, s1, o.sellPrice.base.id);
      FairFeesKept(s, s1, o.sellPrice.quote.id);
      ConsumeGoesThrough(s1, id);
    }
  }

  lemma FairAssets(s: Books, o: LimitOrder)
    requires FairFees(s, o.sellPrice.base.id) && FairFees(s, o.sellPrice.quote.id)
    ensures o.sellPrice.base.id in s.assets && o.sellPrice.quote.id in s.assets
  {
  }
}

/**
 Placing a limit order between two assets that are not market issued: it takes the crossing
 orders of the opposite side, best price first, until it is gone or none is left. The book
 is never left crossed, and no order is touched before every better one is gone.
 */
module LimitBook {
  import opened Wrappers
  import opened Assets
  import opened Sums
  import opened Ledger
  import opened Fills
  import opened Matching
  import opened Trading
  import opened Minimum

  /** The range of the price index that a new order is matched with. */
  predicate InRange(p: MarketPrice, bid: MarketPrice) {
    AtMost(bid.Inverse(), p) && AtMost(p, MaxPrice(bid.quote.id, bid.base.id))
  }

  function Candidates(limits: map<OrderId, LimitOrder>, bid: OrderId): set<OrderId>
    requires bid in limits
  {
    set id <- limits | InRange(limits[id].sellPrice, limits[bid].sellPrice)
  }

  /** The order of the price index: the higher price first, and of equal prices the older order. */
  predicate Before(limits: map<OrderId, LimitOrder>, a: OrderId, b: OrderId)
    requires a in limits && b in limits
  {
    || Less(limits[b].sellPrice, limits[a].sellPrice)
    || (!Less(limits[a].sellPrice, limits[b].sellPrice) && a < b)
  }

  predicate IsFirst(limits: map<OrderId, LimitOrder>, ids: set<OrderId>, first: OrderId)
    requires ids <= limits.Keys
  {
    first in ids && forall i <- ids :: i != first ==> Before(limits, first, i)
  }

  lemma BeforeIsTransitive(limits: map<OrderId, LimitOrder>, a: OrderId, b: OrderId, c: OrderId)
    requires a in limits && b in limits && c in limits
    requires Before(limits, a, b) && Before(limits, b, c)
    ensures Before(limits, a, c)
  {
  }

  lemma FirstExists(limits: map<OrderId, LimitOrder>, ids: set<OrderId>)
    requires ids <= limits.Keys && ids != {}
    ensures exists f :: IsFirst(limits, ids, f)
  {
    hide Before;
    var before := (a: OrderId, b: OrderId) => a in limits && b in limits && Before(limits, a, b);
    forall a, b | a in ids && b in ids && a != b
      ensures before(a, b) <==> !before(b, a)
    {
      BeforeIsTotal(limits, a, b);
    }
    forall a, b, c | a in ids && b in ids && c in ids && before(a, b) && before(b, c)
      ensures before(a, c)
    {
      BeforeIsTransitive(limits, a, b, c);
    }
    var f := MinimumExists(ids, before);
    assert IsFirst(limits, ids, f);
  }

  lemma BeforeIsTotal(limits: map<OrderId, LimitOrder>, a: OrderId, b: OrderId)
    requires a in limits && b in limits && a != b
    ensures Before(limits, a, b) <==> !Before(limits, b, a)
  {
  }

  // ----- one match -----

  lemma CandidateMatches(s: Books, bid: OrderId, ask: OrderId)
    requires bid in s.limits && ask in Candidates(s.limits, bid)
    ensures CanMatchLimits(s, bid, ask, s.limits[ask].sellPrice)
  {
  }

  /** Only the two orders change; at least one is gone, as the result says, and the other keeps something to sell. */
  lemma MatchLimitsFrame(s: Books, bid: OrderId, ask: OrderId, p: MarketPrice)
    requires CanMatchLimits(s, bid, ask, p) && MatchLimits(s, bid, ask, p).Some?
    ensures var (s', bits) := MatchLimits(s, bid, ask, p).value;
            && s' == s.(balances := s'.balances, coreInOrders := s'.coreInOrders, assets := s'.assets, limits := s'.limits)
            && SameAssets(s, s')
            && 1 <= bits <= 3
            && s'.limits.Keys == s.limits.Keys - (if bits % 2 == 1 then {bid} else {}) - (if bits >= 2 then {ask} else {})
            && (forall id <- s'.limits ::
                  s'.limits[id] == s.limits[id].(forSale := s'.limits[id].forSale))
            && (forall id <- s'.limits :: id != bid && id != ask ==> s'.limits[id] == s.limits[id])
            && (forall id <- s'.limits :: s.limits[id].forSale > 0 ==> 0 < s'.limits[id].forSale <= s.limits[id].forSale)
  {
    hide FillLimit, Times;
    var (bidPays, askPays) := LimitAmounts(s, bid, ask, p).value;
    var s1 := FillLimit(s, bid, bidPays, askPays).value.0;
    FillLimitFrame(s, bid, bidPays, askPays);
    FillLimitFrame(s1, ask, askPays, bidPays);
    MatchRounding(s.limits[bid].forSale, s.limits[bid].sellPrice.base.id, s.limits[ask].forSale,
                  s.limits[ask].sellPrice.base.id, p);
  }

  // ----- the loop -----

  lemma FirstIsUnique(limits: map<OrderId, LimitOrder>, ids: set<OrderId>, f: OrderId, g: OrderId)
    requires ids <= limits.Keys && IsFirst(limits, ids, f) && IsFirst(limits, ids, g)
    ensures f == g
  {
  }

  ghost function First(limits: map<OrderId, LimitOrder>, ids: set<OrderId>): (f: OrderId)
    requires ids <= limits.Keys && ids != {}
    ensures IsFirst(limits, ids, f)
  {
    FirstExists(limits, ids);
    var f :| IsFirst(limits, ids, f);
    f
  }

  lemma MatchShrinks(s: Books, bid: OrderId, ask: OrderId, p: MarketPrice)
    requires CanMatchLimits(s, bid, ask, p) && MatchLimits(s, bid, ask, p).Some?
    ensures var (s', bits) := MatchLimits(s, bid, ask, p).value;
            bits == 2 ==> bid in s'.limits && |s'.limits| < |s.limits|
  {
    hide MatchLimits;
    MatchLimitsFrame(s, bid, ask, p);
    var (s', bits) := MatchLimits(s, bid, ask, p).value;
    if bits == 2 {
      assert s'.limits.Keys == s.limits.Keys - {ask};
      assert |s'.limits.Keys| < |s.limits.Keys|;
    }
  }

  /** Matching with the first of the range; also says whether only the other order is gone. */
  ghost function Take(s: Books, bid: OrderId): (r: Option<(Books, bool)>)
    requires bid in s.limits && Candidates(s.limits, bid) != {}
    ensures r.Some? && r.value.1 ==> bid in r.value.0.limits && |r.value.0.limits| < |s.limits|
  {
    hide InRange, MatchLimits, IsFirst, CanMatchLimits;
    var ask := First(s.limits, Candidates(s.limits, bid));
    FirstIsCandidate(s.limits, Candidates(s.limits, bid), ask);
    CandidateMatches(s, bid, ask);
    if MatchLimits(s, bid, ask, s.limits[ask].sellPrice).None? then None
    else
      MatchShrinks(s, bid, ask, s.limits[ask].sellPrice);
      var (s', bits) := MatchLimits(s, bid, ask, s.limits[ask].sellPrice).value;
      Some((s', bits == 2))
  }

  ghost function Consume(s: Books, bid: OrderId): Option<Books>
    requires bid in s.limits
    decreases |s.limits|
  {
    if Candidates(s.limits, bid) == {} then Some(s)
    else if Take(s, bid).None? then None
    else if Take(s, bid).value.1 then Consume(Take(s, bid).value.0, bid)
    else Some(Take(s, bid).value.0)
  }

  ghost predicate Touched(before: map<OrderId, LimitOrder>, after: map<OrderId, LimitOrder>, id: OrderId)
    requires id in before
  {
    id !in after || after[id] != before[id]
  }

  /** The orders that are left are old ones, and still have something to sell if they had. */
  ghost predicate Shrunk(before: map<OrderId, LimitOrder>, after: map<OrderId, LimitOrder>) {
    forall id <- after ::
      && id in before && after[id] == before[id].(forSale := after[id].forSale)
      && (before[id].forSale > 0 ==> 0 < after[id].forSale <= before[id].forSale)
  }

  /** What the loop leaves of the book. */
  ghost predicate Consumed(before: map<OrderId, LimitOrder>, bid: OrderId, after: map<OrderId, LimitOrder>)
    requires bid in before
  {
    var ids := Candidates(before, bid);
    && Shrunk(before, after)
    && (forall id <- before :: id != bid && id !in ids ==> !Touched(before, after, id))
    && (bid in after ==> ids !! after.Keys)
    && (forall a, b :: a in ids && b in ids && Before(before, a, b) && Touched(before, after, b) ==> a !in after)
  }

  /** One match with the first candidate, after which the new order stays or is gone. */
  ghost predicate TookFirst(before: map<OrderId, LimitOrder>, bid: OrderId, ask: OrderId,
                            after: map<OrderId, LimitOrder>, stays: bool)
    requires bid in before
  {
    && IsFirst(before, Candidates(before, bid), ask) && Shrunk(before, after)
    && (bid in after <==> stays) && (stays ==> after.Keys == before.Keys - {ask})
    && (forall id <- before :: id != bid && id != ask ==> !Touched(before, after, id))
  }

  lemma TakeTakesFirst(s: Books, bid: OrderId) returns (ask: OrderId)
    requires bid in s.limits && Candidates(s.limits, bid) != {} && Take(s, bid).Some?
    ensures var (s', stays) := Take(s, bid).value;
            && s' == s.(balances := s'.balances, coreInOrders := s'.coreInOrders, assets := s'.assets, limits := s'.limits)
            && SameAssets(s, s') && TookFirst(s.limits, bid, ask, s'.limits, stays)
  {
    hide InRange, MatchLimits, IsFirst, CanMatchLimits;
    ask := First(s.limits, Candidates(s.limits, bid));
    FirstIsCandidate(s.limits, Candidates(s.limits, bid), ask);
    CandidateMatches(s, bid, ask);
    BidIsNoCandidate(s.limits, bid);
    MatchLimitsFrame(s, bid, ask, s.limits[ask].sellPrice);
  }

  lemma LastMatched(before: map<OrderId, LimitOrder>, bid: OrderId, ask: OrderId, after: map<OrderId, LimitOrder>)
    requires bid in before && TookFirst(before, bid, ask, after, false)
    ensures Consumed(before, bid, after)
  {
  }

  lemma FirstIsBeforeAll(limits: map<OrderId, LimitOrder>, ids: set<OrderId>, first: OrderId, a: OrderId)
    requires ids <= limits.Keys && IsFirst(limits, ids, first) && a in ids
    ensures !Before(limits, a, first)
  {
  }

  lemma BidIsNoCandidate(limits: map<OrderId, LimitOrder>, bid: OrderId)
    requires bid in limits
    ensures bid !in Candidates(limits, bid)
  {
  }

  /** The rest of the loop works on the rest of the candidates. */
  lemma RestConsumed(before: map<OrderId, LimitOrder>, bid: OrderId, ask: OrderId, mid: map<OrderId, LimitOrder>,
                     after: map<OrderId, LimitOrder>)
    requires bid in before && TookFirst(before, bid, ask, mid, true) && Consumed(mid, bid, after)
    ensures Consumed(before, bid, after)
  {
    hide InRange;
    BidIsNoCandidate(before, bid);
    assert Candidates(mid, bid) == Candidates(before, bid) - {ask};
    forall a, b | a in Candidates(before, bid) && b in Candidates(before, bid) && Before(before, a, b) && Touched(before, after, b)
      ensures a !in after
    {
      FirstIsBeforeAll(before, Candidates(before, bid), ask, a);
      if a != ask { assert Before(mid, a, b); }
    }
  }

  lemma {:induction false} ConsumeIsConsumed(s: Books, bid: OrderId)
    requires bid in s.limits && Consume(s, bid).Some?
    ensures var s' := Consume(s, bid).value;
            && s' == s.(balances := s'.balances, coreInOrders := s'.coreInOrders, assets := s'.assets, limits := s'.limits)
            && SameAssets(s, s') && Consumed(s.limits, bid, s'.limits)
    decreases |s.limits|
  {
    hide InRange, Take, Consumed, TookFirst;
    if Candidates(s.limits, bid) == {} {
      NothingConsumed(s.limits, bid);
    } else {
      var (s1, stays) := Take(s, bid).value;
      var ask := TakeTakesFirst(s, bid);
      if stays {
        ConsumeIsConsumed(s1, bid);
        RestConsumed(s.limits, bid, ask, s1.limits, Consume(s1, bid).value.limits);
      } else {
        LastMatched(s.limits, bid, ask, s1.limits);
      }
    }
  }

  lemma NothingConsumed(limits: map<OrderId, LimitOrder>, bid: OrderId)
    requires bid in limits && Candidates(limits, bid) == {}
    ensures Consumed(limits, bid, limits)
  {
  }

  lemma FirstIsCandidate(limits: map<OrderId, LimitOrder>, ids: set<OrderId>, f: OrderId)
    requires ids <= limits.Keys && IsFirst(limits, ids, f)
    ensures f in ids
  {
  }

  lemma TakeConserves(m: Measure, s: Books, bid: OrderId)
    requires bid in s.limits && Candidates(s.limits, bid) != {} && Take(s, bid).Some? && !m.Wealth?
    ensures Total(m, Take(s, bid).value.0) == Total(m, s)
  {
    hide InRange, MatchLimits, IsFirst, CanMatchLimits, Total;
    var ask := First(s.limits, Candidates(s.limits, bid));
    FirstIsCandidate(s.limits, Candidates(s.limits, bid), ask);
    CandidateMatches(s, bid, ask);
    MatchLimitsConserves(m, s, bid, ask, s.limits[ask].sellPrice);
  }

  lemma {:induction false} ConsumeConserves(m: Measure, s: Books, bid: OrderId)
    requires bid in s.limits && Consume(s, bid).Some? && !m.Wealth?
    ensures Total(m, Consume(s, bid).value) == Total(m, s)
    decreases |s.limits|
  {
    hide InRange, Take, Total;
    if Candidates(s.limits, bid) == {} {
    } else {
      TakeConserves(m, s, bid);
      if Take(s, bid).value.1 { ConsumeConserves(m, Take(s, bid).value.0, bid); }
    }
  }

  // ----- the book is never crossed -----

  predicate IsPlain(s: Books, a: AssetId) {
    a in s.assets && s.assets[a].bit.None?
  }

  predicate Crosses(a: MarketPrice, b: MarketPrice) {
    Opposite(a, b) && AtMost(a.Inverse(), b)
  }

  /** No two opposite orders of a market between plain assets would trade. */
  ghost predicate Uncrossed(s: Books) {
    forall a, b :: a in s.limits && b in s.limits && InPlainMarket(s, a) ==>
      !Crosses(s.limits[a].sellPrice, s.limits[b].sellPrice)
  }

  predicate InPlainMarket(s: Books, id: OrderId)
    requires id in s.limits
  {
    IsPlain(s, s.limits[id].sellPrice.base.id) && IsPlain(s, s.limits[id].sellPrice.quote.id)
  }

  /** `limit_order_create` in such a market; `keep` is false for an order to be filled or killed. */
  ghost function Create(s: Books, id: OrderId, o: LimitOrder, keep: bool): Option<Books> {
    if !IsPlain(s, o.sellPrice.base.id) || !IsPlain(s, o.sellPrice.quote.id) || PlacedLimit(s, id, o).None? then None
    else
      var r := Consume(PlacedLimit(s, id, o).value, id);
      if r.None? || (!keep && id in r.value.limits) then None else r
  }

  lemma PlacedLimitFrame(s: Books, id: OrderId, o: LimitOrder)
    requires PlacedLimit(s, id, o).Some?
    ensures var s' := PlacedLimit(s, id, o).value;
            && s' == s.(balances := s'.balances, coreInOrders := s'.coreInOrders, limits := s.limits[id := o])
            && id !in s.limits
  {
  }

  /** A new order in a crossing price beyond the highest price of the index is not matched with. */
  predicate BeyondReach(p: MarketPrice) {
    p.base.amount > MAX_SHARE_SUPPLY * p.quote.amount
  }

  lemma CrossingIsCandidate(limits: map<OrderId, LimitOrder>, bid: OrderId, id: OrderId)
    requires bid in limits && id in limits
    ensures Crosses(limits[bid].sellPrice, limits[id].sellPrice) && !BeyondReach(limits[id].sellPrice)
            <==> id in Candidates(limits, bid)
  {
  }

  lemma CrossingIsMutual(a: MarketPrice, b: MarketPrice)
    ensures Crosses(a, b) <==> Crosses(b, a)
  {
  }

  /**
   An uncrossed book is uncrossed after a new order, unless the order stays and the book held
   a crossing order that the search cannot reach; such a book then stays crossed.
   */
  lemma CreateUncrosses(s: Books, id: OrderId, o: LimitOrder, keep: bool)
    requires Uncrossed(s) && Create(s, id, o, keep).Some?
    ensures var s' := Create(s, id, o, keep).value;
            Uncrossed(s') <==>
              !(id in s'.limits
                && exists far :: far in s.limits && Crosses(o.sellPrice, s.limits[far].sellPrice)
                                 && BeyondReach(s.limits[far].sellPrice))
  {
    hide Consume, PlacedLimit, Uncrossed, Consumed;
    PlacedLimitFrame(s, id, o);
    var s1 := PlacedLimit(s, id, o).value;
    ConsumeIsConsumed(s1, id);
    if id in Consume(s1, id).value.limits {
      LeftCrossedByFar(s, id, o, s1, Consume(s1, id).value);
    } else {
      GoneLeavesUncrossed(s, id, o, s1, Consume(s1, id).value);
    }
  }

  lemma GoneLeavesUncrossed(s: Books, id: OrderId, o: LimitOrder, s1: Books, s': Books)
    requires Uncrossed(s) && id !in s.limits && s1.limits == s.limits[id := o]
    requires SameAssets(s, s') && Consumed(s1.limits, id, s'.limits) && id !in s'.limits
    ensures Uncrossed(s')
  {
    hide InRange, Crosses;
    forall a | a in s'.limits && InPlainMarket(s', a)
      ensures a in s.limits && InPlainMarket(s, a) && s'.limits[a].sellPrice == s.limits[a].sellPrice
    {
    }
  }

  lemma LeftCrossedByFar(s: Books, id: OrderId, o: LimitOrder, s1: Books, s': Books)
    requires Uncrossed(s) && id !in s.limits && s1.limits == s.limits[id := o]
    requires IsPlain(s, o.sellPrice.base.id) && IsPlain(s, o.sellPrice.quote.id)
    requires SameAssets(s, s') && Consumed(s1.limits, id, s'.limits) && id in s'.limits
    ensures Uncrossed(s') <==>
              !exists far :: far in s.limits && Crosses(o.sellPrice, s.limits[far].sellPrice)
                             && BeyondReach(s.limits[far].sellPrice)
  {
    hide InRange, Crosses, BeyondReach;
    if far :| far in s.limits && Crosses(o.sellPrice, s.limits[far].sellPrice) && BeyondReach(s.limits[far].sellPrice) {
      CrossingIsCandidate(s1.limits, id, far);
      assert far in s'.limits && s'.limits[far] == s.limits[far];
      assert InPlainMarket(s', id);
    } else {
      forall b | b in s'.limits
        ensures !Crosses(o.sellPrice, s'.limits[b].sellPrice) && !Crosses(s'.limits[b].sellPrice, o.sellPrice)
      {
        CrossingIsCandidate(s1.limits, id, b);
        CrossingIsMutual(o.sellPrice, s'.limits[b].sellPrice);
        NeverCrossesItself(o.sellPrice);
      }
      forall a, b | a in s'.limits && b in s'.limits && InPlainMarket(s', a)
        ensures !Crosses(s'.limits[a].sellPrice, s'.limits[b].sellPrice)
      {
        if a != id && b != id {
          assert InPlainMarket(s, a);
        }
      }
    }
  }

  lemma NeverCrossesItself(p: MarketPrice)
    ensures !Crosses(p, p)
  {
  }

  // ----- what one new order does to the book -----

  predicate Tradable(bid: MarketPrice, ask: MarketPrice) {
    Crosses(bid, ask) && !BeyondReach(ask)
  }

  /** More of what is sold for every unit asked for, or the same and older. */
  predicate IsBetter(limits: map<OrderId, LimitOrder>, a: OrderId, b: OrderId)
    requires a in limits && b in limits
  {
    var (p, q) := (limits[a].sellPrice, limits[b].sellPrice);
    || q.base.amount * p.quote.amount < p.base.amount * q.quote.amount
    || (q.base.amount * p.quote.amount == p.base.amount * q.quote.amount && a < b)
  }

  lemma BeforeIsBetter(limits: map<OrderId, LimitOrder>, a: OrderId, b: OrderId)
    requires a in limits && b in limits && SameMarket(limits[a].sellPrice, limits[b].sellPrice)
    ensures Before(limits, a, b) <==> IsBetter(limits, a, b)
  {
  }

  lemma TradableIsOneMarket(bid: MarketPrice, p: MarketPrice, q: MarketPrice)
    requires Tradable(bid, p) && Tradable(bid, q)
    ensures SameMarket(p, q)
  {
  }

  /**
   Price-time priority: no order is touched before every better one is gone. A new order that stays has
   used up every order that it can trade with, and no other order is touched.
   */
  lemma CreateTakesInOrder(s: Books, id: OrderId, o: LimitOrder, keep: bool)
    requires Create(s, id, o, keep).Some?
    ensures var s' := Create(s, id, o, keep).value;
            && (forall a <- s.limits, b <- s.limits ::
                  Tradable(o.sellPrice, s.limits[a].sellPrice) && Tradable(o.sellPrice, s.limits[b].sellPrice) ==>
                  IsBetter(s.limits, a, b) && Touched(s.limits, s'.limits, b) ==> a !in s'.limits)
            && (id in s'.limits ==> keep && forall a <- s.limits :: Tradable(o.sellPrice, s.limits[a].sellPrice) ==> a !in s'.limits)
            && (forall a <- s.limits :: !Tradable(o.sellPrice, s.limits[a].sellPrice) ==> !Touched(s.limits, s'.limits, a))
  {
    hide Consume, PlacedLimit, InRange, BeyondReach, Crosses, IsBetter, Before;
    PlacedLimitFrame(s, id, o);
    var s1 := PlacedLimit(s, id, o).value;
    ConsumeIsConsumed(s1, id);
    var s' := Create(s, id, o, keep).value;
    forall a <- s.limits
      ensures Tradable(o.sellPrice, s.limits[a].sellPrice) <==> a in Candidates(s1.limits, id)
    {
      CrossingIsCandidate(s1.limits, id, a);
    }
    forall a <- s.limits, b <- s.limits |
      Tradable(o.sellPrice, s.limits[a].sellPrice) && Tradable(o.sellPrice, s.limits[b].sellPrice) && IsBetter(s.limits, a, b)
      ensures Before(s1.limits, a, b)
    {
      TradableIsOneMarket(o.sellPrice, s.limits[a].sellPrice, s.limits[b].sellPrice);
      BeforeIsBetter(s.limits, a, b);
      BeforeAlike(s.limits, s1.limits, a, b);
    }
  }

  lemma BeforeAlike(limits: map<OrderId, LimitOrder>, limits': map<OrderId, LimitOrder>, a: OrderId, b: OrderId)
    requires a in limits && b in limits && a in limits' && b in limits' && limits[a] == limits'[a]
    requires limits[b] == limits'[b]
    ensures Before(limits, a, b) <==> Before(limits', a, b)
  {
  }

  lemma CreateConserves(m: Measure, s: Books, id: OrderId, o: LimitOrder, keep: bool)
    requires Create(s, id, o, keep).Some? && !m.Wealth?
    ensures Total(m, Create(s, id, o, keep).value) == Total(m, s)
  {
    hide Consume, PlacedLimit, Total;
    PlacedLimitFrame(s, id, o);
    PlaceConserves(m, s, id, o);
    ConsumeConserves(m, PlacedLimit(s, id, o).value, id);
  }

  // ----- runs -----

  datatype BookOp = CreateLimit(id: OrderId, order: LimitOrder, keep: bool) | CancelLimitOp(id: OrderId)

  ghost function ApplyToBook(s: Books, op: BookOp): Books {
    match op
    case CreateLimit(id, o, keep) => if Create(s, id, o, keep).Some? then Create(s, id, o, keep).value else s
    case CancelLimitOp(id) => if id in s.limits then CancelLimit(s, id) else s
  }

  ghost function RunBook(s: Books, ops: seq<BookOp>): Books
    decreases |ops|
  {
    if ops == [] then s else RunBook(ApplyToBook(s, ops[0]), ops[1..])
  }

  /** Every order has something left to sell, of no more than the largest supply. */
  ghost predicate Live(s: Books) {
    forall id <- s.limits ::
      0 < s.limits[id].forSale <= s.limits[id].sellPrice.base.amount <= MAX_SHARE_SUPPLY
  }

  predicate WithinSupply(op: BookOp) {
    op.CreateLimit? ==> op.order.sellPrice.base.amount <= MAX_SHARE_SUPPLY
  }

  lemma LiveIsInReach(s: Books)
    requires Live(s)
    ensures forall id <- s.limits :: !BeyondReach(s.limits[id].sellPrice)
  {
  }

  lemma CreateKeepsLive(s: Books, id: OrderId, o: LimitOrder, keep: bool)
    requires Live(s) && o.sellPrice.base.amount <= MAX_SHARE_SUPPLY && Create(s, id, o, keep).Some?
    ensures Live(Create(s, id, o, keep).value)
  {
    hide Consume, Candidates;
    PlacedLimitFrame(s, id, o);
    ConsumeIsConsumed(PlacedLimit(s, id, o).value, id);
  }

  lemma {:induction false} BookIsNeverCrossed(s: Books, ops: seq<BookOp>)
    requires Uncrossed(s) && Live(s) && forall op <- ops :: WithinSupply(op)
    ensures Uncrossed(RunBook(s, ops)) && Live(RunBook(s, ops))
    decreases |ops|
  {
    hide Uncrossed, Live, Create, CancelLimit, BeyondReach, Crosses;
    if ops == [] {
    } else {
      assert WithinSupply(ops[0]);
      match ops[0] {
        case CreateLimit(id, o, keep) =>
          if Create(s, id, o, keep).Some? {
            LiveIsInReach(s);
            CreateUncrosses(s, id, o, keep);
            CreateKeepsLive(s, id, o, keep);
          }
        case CancelLimitOp(id) =>
          if id in s.limits { CancelKeepsBook(s, id); }
      }
      BookIsNeverCrossed(ApplyToBook(s, ops[0]), ops[1..]);
    }
  }

  lemma CancelKeepsBook(s: Books, id: OrderId)
    requires Uncrossed(s) && Live(s) && id in s.limits
    ensures Uncrossed(CancelLimit(s, id)) && Live(CancelLimit(s, id))
  {
  }
}

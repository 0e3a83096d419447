/**
 What clearing settlements trades: the settlements of an asset in turn, the earliest first, each with the position
 that has the least collateral for its debt, at the feed less the discount, and who pays whom for it.
 */
module SettlementTrades {
  import opened Wrappers
  import opened Assets
  import opened Sums
  import opened Ledger
  import opened Fills
  import opened Matching
  import opened Trading
  import opened TradingSafety
  import opened TradingOutcomes
  import opened Settling

  /** The settlement gives up `amount` of an asset, which a position then owes less, for `paid` of its collateral. */
  datatype Trade = Trade(call: CallKey, id: OrderId, amount: nat, paid: nat)

  /** The positions and settlements at some time. */
  datatype Desk = Desk(calls: map<CallKey, CallOrder>, settlements: map<OrderId, Settlement>)

  function DeskOf(s: Books): Desk {
    Desk(s.calls, s.settlements)
  }

  // ----- whose turn it is -----

  /** Less collateral for every unit of debt; of equal ones that of the account with the lower id. */
  predicate HasLess(d: Desk, k: CallKey, l: CallKey)
    requires k in d.calls && l in d.calls
  {
    var (x, y) := (d.calls[k], d.calls[l]);
    || x.collateral * y.debt < y.collateral * x.debt
    || (x.collateral * y.debt == y.collateral * x.debt && k.0 < l.0)
  }

  predicate IsEarlier(d: Desk, i: OrderId, j: OrderId)
    requires i in d.settlements && j in d.settlements
  {
    d.settlements[i].date < d.settlements[j].date || (d.settlements[i].date == d.settlements[j].date && i < j)
  }

  /** The trade is the next one: of the earliest settlement of the asset with the position that has least. */
  ghost predicate IsDue(d: Desk, t: Trade) {
    && t.call in d.calls && t.id in d.settlements && d.settlements[t.id].asset == t.call.1
    && 0 < t.amount <= d.settlements[t.id].balance && t.amount <= d.calls[t.call].debt
    && (forall l <- d.calls :: l.1 == t.call.1 && l != t.call && HasCollateral(d.calls[l]) ==> HasLess(d, t.call, l))
    && (forall j <- d.settlements :: d.settlements[j].asset == t.call.1 && j != t.id ==> IsEarlier(d, t.id, j))
  }

  /** Both shrink by the trade, and are gone when nothing is owed, or asked for, any more. */
  function DeskAfter(d: Desk, t: Trade): Desk
    requires t.call in d.calls && t.amount <= d.calls[t.call].debt
    requires t.id in d.settlements && t.amount <= d.settlements[t.id].balance
  {
    var (o, r) := (d.calls[t.call], d.settlements[t.id]);
    Desk(if t.amount == o.debt then d.calls - {t.call}
         else d.calls[t.call := o.(debt := o.debt - t.amount, collateral := o.collateral - t.paid)],
         if t.amount == r.balance then d.settlements - {t.id}
         else d.settlements[t.id := r.(balance := r.balance - t.amount)])
  }

  // ----- at what price -----

  /** The feed, in units of the asset for units of its backing, and what the discount leaves of a hundred percent. */
  predicate IsFeed(s: Books, a: AssetId, x: int, y: int, percent: int) {
    && IsBit(s, a) && s.assets[a].bit.value.settlementPrice.Some?
    && var (b, p) := (s.assets[a].bit.value, s.assets[a].bit.value.settlementPrice.value);
       && percent == HUNDRED_PERCENT - b.offsetPercent >= 0
       && ((p.base == Asset(x, a) && p.quote == Asset(y, b.backing)) || (p.quote == Asset(x, a) && p.base == Asset(y, b.backing)))
  }

  /**
   What is paid is at most the worth of the amount at the feed less the discount,
   and less than three units below that.
   */
  ghost predicate AtFeed(s: Books, t: Trade) {
    exists x, y, percent :: IsFeed(s, t.call.1, x, y, percent) && WithinThree(t, x, y, percent)
  }

  predicate WithinThree(t: Trade, x: int, y: int, percent: int) {
    t.paid * x * HUNDRED_PERCENT <= t.amount * y * percent < (t.paid + 3) * x * HUNDRED_PERCENT
  }

  /** Every trade is due when it is made, and at the feed. */
  ghost predicate InTurn(s: Books, d: Desk, trades: seq<Trade>, end: Desk)
    decreases |trades|
  {
    if trades == [] then d == end
    else IsDue(d, trades[0]) && AtFeed(s, trades[0]) && InTurn(s, DeskAfter(d, trades[0]), trades[1..], end)
  }

  function Volume(trades: seq<Trade>, a: AssetId): nat {
    if trades == [] then 0 else (if trades[0].call.1 == a then trades[0].amount else 0) + Volume(trades[1..], a)
  }

  // ----- who pays whom -----

  /** The borrower pays the owner, less the fee; the owner gives up the amount, and the borrower owes that much less. */
  function TradeMoves(m: Measure, s: Books, t: Trade): int {
    if t.id !in s.settlements || Backing(s, t.call.1).None? then 0
    else
      var (owner, b) := (s.settlements[t.id].owner, Backing(s, t.call.1).value);
      Payment(m, t.call.0, owner, b, t.paid, FeeOf(s, b, t.paid)) - Gain(m, owner, t.call.1, t.amount)
      + Covering(m, t.call.0, t.call.1, t.amount)
  }

  function TradesMove(m: Measure, s: Books, trades: seq<Trade>): int {
    if trades == [] then 0 else TradeMoves(m, s, trades[0]) + TradesMove(m, s, trades[1..])
  }

  // ----- one match -----

  /** The rate that one settlement is traded at: its balance when its turn comes, for what that is worth. */
  predicate AtRate(t: Trade, p: SettlementPrice) {
    t.paid * p.from <= t.amount * p.to < (t.paid + 1) * p.from && t.amount <= p.from
  }

  predicate IsAccountMeasure(m: Measure) {
    m.Wealth? || m.Owes?
  }

  ghost predicate IsEarliest(d: Desk, id: OrderId) {
    id in d.settlements &&
    forall j <- d.settlements :: d.settlements[j].asset == d.settlements[id].asset && j != id ==> IsEarlier(d, id, j)
  }

  lemma WeakestHasLeast(s: Books, a: AssetId, k: CallKey, l: CallKey)
    requires Valid(s) && Positive(s) && Backing(s, a) != Some(a) && IsWeakest(s, CallsInRange(s, a), k)
    requires l in s.calls && l.1 == a && l != k && HasCollateral(s.calls[l])
    ensures k in s.calls && k.1 == a && HasLess(DeskOf(s), k, l)
  {
    assert l in CallsInRange(s, a);
  }

  lemma MatchIsDue(s: Books, k: CallKey, id: OrderId, p: SettlementPrice, max: nat) returns (t: Trade)
    requires Valid(s) && Positive(s) && Priced(s, id, p) && id in s.settlements && IsEarliest(DeskOf(s), id)
    requires max > 0 && s.settlements[id].balance <= p.from
    requires Backing(s, s.settlements[id].asset) != Some(s.settlements[id].asset)
    requires IsWeakest(s, CallsInRange(s, s.settlements[id].asset), k) && k in s.calls
    requires s.calls[k].debtAsset == s.settlements[id].asset
    requires MatchSettlement(s, k, id, p, max).Some?
    ensures var (s', amount) := MatchSettlement(s, k, id, p, max).value;
            && t.call == k && t.id == id && t.amount == amount && k.1 == s.settlements[id].asset && IsDue(DeskOf(s), t) && AtRate(t, p)
            && DeskOf(s') == DeskAfter(DeskOf(s), t) && SameAssets(s, s')
            && forall m | IsAccountMeasure(m) :: Total(m, s') == Total(m, s) + TradeMoves(m, s, t)
  {
    hide MatchSettlement, SettledFor, SettledAmount, IsWeakest, HasLess, CallsInRange, Total, HasCollateral,
         SameAssets, IsEarlier;
    var a, amount := s.settlements[id].asset, SettledAmount(s, k, id, max);
    MatchSettlementFrame(s, k, id, p, max);
    MatchKeepsPositive(s, k, id, p, max);
    var pays := SettledIsLeast(s, k, id, p, max);
    t := Trade(k, id, amount, pays);
    forall l <- s.calls | l.1 == a && l != k && HasCollateral(s.calls[l])
      ensures HasLess(DeskOf(s), k, l)
    {
      WeakestHasLeast(s, a, k, l);
    }
    forall m | IsAccountMeasure(m)
      ensures Total(m, MatchSettlement(s, k, id, p, max).value.0) == Total(m, s) + TradeMoves(m, s, t)
    {
      MatchSettlementMoves(m, s, k, id, p, max);
      TradeIsPaid(m, s, k, id, p, max, t);
    }
  }

  lemma TradeIsPaid(m: Measure, s: Books, k: CallKey, id: OrderId, p: SettlementPrice, max: nat, t: Trade)
    requires Valid(s) && k in s.calls && id in s.settlements && s.settlements[id].asset == s.calls[k].debtAsset
    requires SettledFor(SettledAmount(s, k, id, max), p) == Some(t.paid) && IsAccountMeasure(m)
    requires t.call == k && t.id == id && t.amount == SettledAmount(s, k, id, max)
    ensures SettlementTrade(m, s, k, id, p, max) == TradeMoves(m, s, t)
  {
    hide SettledFor, SettledAmount, FeeOf, CallDrift;
  }

  // ----- the terms of all trades stay -----

  /** What fees, backing and feed depend on. */
  function Terms(d: AssetData): AssetData {
    d.(supply := 0, fees := 0, bit := if d.bit.None? then None else Some(d.bit.value.(forceSettled := 0)))
  }

  ghost predicate SameTerms(s: Books, s': Books) {
    && s'.assets.Keys == s.assets.Keys && (forall a <- s.assets :: Terms(s'.assets[a]) == Terms(s.assets[a]))
    && forall id <- s'.settlements :: id in s.settlements && s'.settlements[id].owner == s.settlements[id].owner
  }

  lemma SameTermsTwice(s: Books, s1: Books, s2: Books)
    requires SameTerms(s, s1) && SameTerms(s1, s2)
    ensures SameTerms(s, s2)
  {
    hide Terms;
  }

  lemma MatchKeepsTerms(s: Books, t: Trade, s': Books)
    requires IsDue(DeskOf(s), t) && DeskOf(s') == DeskAfter(DeskOf(s), t) && SameAssets(s, s')
    ensures SameTerms(s, s')
  {
    hide HasLess, IsEarlier, HasCollateral;
  }

  lemma TradeMovesAlike(m: Measure, s: Books, s': Books, t: Trade)
    requires SameTerms(s, s') && t.id in s'.settlements
    ensures TradeMoves(m, s', t) == TradeMoves(m, s, t)
  {
    TermsDecide(s, s', t.call.1);
    if Backing(s, t.call.1).Some? { TermsDecide(s, s', Backing(s, t.call.1).value); }
  }

  lemma TermsDecide(s: Books, s': Books, a: AssetId)
    requires SameTerms(s, s')
    ensures Backing(s', a) == Backing(s, a)
    ensures forall n: nat :: FeeOf(s', a, n) == FeeOf(s, a, n)
  {
    if a in s.assets {
      assert Terms(s'.assets[a]) == Terms(s.assets[a]);
      TermsOf(s.assets[a], s'.assets[a]);
    }
  }

  lemma TermsOf(d: AssetData, d': AssetData)
    requires Terms(d) == Terms(d')
    ensures d'.chargesFees == d.chargesFees && d'.feePercent == d.feePercent && d'.minFee == d.minFee
    ensures d'.maxFee == d.maxFee
    ensures d.bit.Some? <==> d'.bit.Some?
    ensures d.bit.Some? ==> d'.bit.value == d.bit.value.(forceSettled := d'.bit.value.forceSettled)
  {
    assert Terms(d).chargesFees == d.chargesFees && Terms(d).feePercent == d.feePercent;
    assert Terms(d').chargesFees == d'.chargesFees && Terms(d').feePercent == d'.feePercent;
    if d.bit.Some? && d'.bit.Some? {
      assert Terms(d).bit.value == d.bit.value.(forceSettled := 0);
      assert Terms(d').bit.value == d'.bit.value.(forceSettled := 0);
    }
  }

  lemma FeedAlike(s: Books, s': Books, t: Trade)
    requires SameTerms(s, s') && AtFeed(s', t)
    ensures AtFeed(s, t)
  {
    hide WithinThree;
    var x, y, percent :| IsFeed(s', t.call.1, x, y, percent) && WithinThree(t, x, y, percent);
    TermsOf(s.assets[t.call.1], s'.assets[t.call.1]);
    assert IsFeed(s, t.call.1, x, y, percent);
  }

  // ----- sequences of trades -----

  lemma {:induction false} InTurnThen(s: Books, d: Desk, first: seq<Trade>, mid: Desk, rest: seq<Trade>, end: Desk)
    requires InTurn(s, d, first, mid) && InTurn(s, mid, rest, end)
    ensures InTurn(s, d, first + rest, end)
    decreases |first|
  {
    hide IsDue, AtFeed, DeskAfter;
    if first == [] {
      assert first + rest == rest;
    } else {
      FirstOf(s, d, first, mid);
      InTurnThen(s, DeskAfter(d, first[0]), first[1..], mid, rest, end);
      assert (first + rest)[1..] == first[1..] + rest;
    }
  }

  lemma {:induction false} FirstOf(s: Books, d: Desk, trades: seq<Trade>, end: Desk)
    requires trades != [] && InTurn(s, d, trades, end)
    ensures IsDue(d, trades[0]) && trades[0].call in d.calls && trades[0].amount <= d.calls[trades[0].call].debt
    ensures trades[0].id in d.settlements && trades[0].amount <= d.settlements[trades[0].id].balance
  {
  }

  lemma {:induction false} VolumeThen(first: seq<Trade>, rest: seq<Trade>, a: AssetId)
    ensures Volume(first + rest, a) == Volume(first, a) + Volume(rest, a)
  {
    if first == [] {
      assert first + rest == rest;
    } else {
      VolumeThen(first[1..], rest, a);
      assert (first + rest)[1..] == first[1..] + rest;
    }
  }

  lemma {:induction false} MovesThen(m: Measure, s: Books, first: seq<Trade>, rest: seq<Trade>)
    ensures TradesMove(m, s, first + rest) == TradesMove(m, s, first) + TradesMove(m, s, rest)
  {
    hide TradeMoves;
    if first == [] {
      assert first + rest == rest;
    } else {
      MovesThen(m, s, first[1..], rest);
      assert (first + rest)[1..] == first[1..] + rest;
    }
  }

  /** Trades that lead from one state of the books to another, at the terms of the first books. */
  ghost predicate Traded(s0: Books, s: Books, trades: seq<Trade>, s': Books) {
    && InTurn(s0, DeskOf(s), trades, DeskOf(s'))
    && forall m | IsAccountMeasure(m) :: Total(m, s') == Total(m, s) + TradesMove(m, s0, trades)
  }

  lemma TradedThen(s0: Books, s: Books, first: seq<Trade>, s1: Books, rest: seq<Trade>, s2: Books)
    requires Traded(s0, s, first, s1) && Traded(s0, s1, rest, s2)
    ensures Traded(s0, s, first + rest, s2)
  {
    hide Total, InTurn, TradesMove;
    InTurnThen(s0, DeskOf(s), first, DeskOf(s1), rest, DeskOf(s2));
    forall m | IsAccountMeasure(m)
      ensures Total(m, s2) == Total(m, s) + TradesMove(m, s0, first + rest)
    {
      MovesThen(m, s0, first, rest);
    }
  }

  lemma TradedOnce(s0: Books, s: Books, t: Trade, s': Books)
    requires SameTerms(s0, s) && IsDue(DeskOf(s), t) && AtFeed(s0, t) && DeskOf(s') == DeskAfter(DeskOf(s), t)
    requires forall m | IsAccountMeasure(m) :: Total(m, s') == Total(m, s) + TradeMoves(m, s, t)
    ensures Traded(s0, s, [t], s')
  {
    hide Total, TradeMoves, AtFeed, SameTerms, HasLess, IsEarlier, HasCollateral;
    assert [t][0] == t && [t][1..] == [];
    assert InTurn(s0, DeskAfter(DeskOf(s), t), [], DeskOf(s'));
    forall m | IsAccountMeasure(m)
      ensures Total(m, s') == Total(m, s) + TradesMove(m, s0, [t])
    {
      TradeMovesAlike(m, s0, s, t);
      assert TradesMove(m, s0, [t]) == TradeMoves(m, s0, t) + TradesMove(m, s0, []);
    }
  }

  // ----- rounding three times loses less than three units -----

  lemma AtMostExact(whole: nat, worth: nat, to: nat, amount: nat, paid: nat, x: nat, y: nat, percent: nat)
    requires whole > 0 && worth * x <= whole * y && to * HUNDRED_PERCENT <= worth * percent && paid * whole <= amount * to
    ensures paid * x * HUNDRED_PERCENT <= amount * y * percent
  {
    calc {
      paid * x * HUNDRED_PERCENT * whole;
    ==
      paid * whole * (x * HUNDRED_PERCENT);
    <= { ProductGrows(paid * whole, amount * to, x * HUNDRED_PERCENT); }
      amount * to * (x * HUNDRED_PERCENT);
    ==
      to * HUNDRED_PERCENT * (amount * x);
    <= { ProductGrows(to * HUNDRED_PERCENT, worth * percent, amount * x); }
      worth * percent * (amount * x);
    ==
      worth * x * (amount * percent);
    <= { ProductGrows(worth * x, whole * y, amount * percent); }
      whole * y * (amount * percent);
    ==
      amount * y * percent * whole;
    }
    CancelProduct(paid * x * HUNDRED_PERCENT, amount * y * percent, whole);
  }

  lemma TwoLessThanWorth(whole: nat, worth: nat, to: nat, amount: nat, x: nat, y: nat, percent: nat)
    requires percent <= HUNDRED_PERCENT
    requires whole * y <= (worth + 1) * x && worth * percent < (to + 1) * HUNDRED_PERCENT
    ensures amount * y * percent * whole <= (to + 2) * HUNDRED_PERCENT * (amount * x)
  {
    calc {
      amount * y * percent * whole;
    ==
      whole * y * (amount * percent);
    <= { ProductGrows(whole * y, (worth + 1) * x, amount * percent); }
      (worth + 1) * x * (amount * percent);
    ==
      (worth * percent + percent) * (amount * x);
    <= { ProductGrows(worth * percent + percent, (to + 2) * HUNDRED_PERCENT, amount * x); }
      (to + 2) * HUNDRED_PERCENT * (amount * x);
    }
  }

  lemma OneLessThanRate(whole: nat, to: nat, amount: nat, paid: nat, x: nat)
    requires whole > 0 && x > 0 && amount <= whole && amount * to < (paid + 1) * whole
    ensures (to + 2) * HUNDRED_PERCENT * (amount * x) < (paid + 3) * x * HUNDRED_PERCENT * whole
  {
    MultiplesApart(amount * to + 2 * amount, (paid + 1) * whole + 2 * whole, x * HUNDRED_PERCENT);
    assert (to + 2) * HUNDRED_PERCENT * (amount * x) == (amount * to + 2 * amount) * (x * HUNDRED_PERCENT);
    assert ((paid + 1) * whole + 2 * whole) * (x * HUNDRED_PERCENT) == (paid + 3) * x * HUNDRED_PERCENT * whole;
  }

  lemma LessThanThreeBelow(whole: nat, worth: nat, to: nat, amount: nat, paid: nat, x: nat, y: nat, percent: nat)
    requires whole > 0 && x > 0 && percent <= HUNDRED_PERCENT && amount <= whole
    requires whole * y <= (worth + 1) * x && worth * percent < (to + 1) * HUNDRED_PERCENT
    requires amount * to < (paid + 1) * whole
    ensures amount * y * percent < (paid + 3) * x * HUNDRED_PERCENT
  {
    TwoLessThanWorth(whole, worth, to, amount, x, y, percent);
    OneLessThanRate(whole, to, amount, paid, x);
    if amount * y * percent >= (paid + 3) * x * HUNDRED_PERCENT {
      ProductGrows((paid + 3) * x * HUNDRED_PERCENT, amount * y * percent, whole);
    }
  }

  ghost predicate RateIsFeed(s: Books, a: AssetId, p: SettlementPrice) {
    forall t: Trade | t.call.1 == a && AtRate(t, p) :: AtFeed(s, t)
  }

  /** The worth of a whole balance, less the discount, is a rate at the feed for every part of it. */
  lemma PriceIsFeed(s: Books, id: OrderId)
    requires id in s.settlements && IsBit(s, s.settlements[id].asset) && PriceOf(s, id).Some?
    ensures RateIsFeed(s, s.settlements[id].asset, PriceOf(s, id).value)
  {
    hide Times, WithinThree;
    var (r, b, p) := (s.settlements[id], s.assets[s.settlements[id].asset].bit.value, PriceOf(s, id).value);
    DiscountRoundsDown(s, id);
    var feed, percent := b.settlementPrice.value, HUNDRED_PERCENT - b.offsetPercent;
    var worth := Times(r.balance, r.asset, feed).value;
    var (x, y) := Legs(r.asset, feed);
    TimesRoundsDown(r.balance, r.asset, feed);
    FeedIsThere(s, r.asset, id);
    forall t: Trade | t.call.1 == r.asset && AtRate(t, p)
      ensures AtFeed(s, t)
    {
      WithinThreeUnits(t, p, worth, x, y, percent);
      assert IsFeed(s, t.call.1, x, y, percent);
    }
  }

  lemma FeedIsThere(s: Books, a: AssetId, id: OrderId)
    requires id in s.settlements && s.settlements[id].asset == a && IsBit(s, a) && PriceOf(s, id).Some?
    ensures var (b, p) := (s.assets[a].bit.value, s.assets[a].bit.value.settlementPrice.value);
            IsFeed(s, a, Legs(a, p).0, Legs(a, p).1, HUNDRED_PERCENT - b.offsetPercent) && b.backing != a
  {
    hide Times;
  }

  lemma WithinThreeUnits(t: Trade, p: SettlementPrice, worth: nat, x: int, y: int, percent: nat)
    requires AtRate(t, p) && x > 0 && y > 0 && percent <= HUNDRED_PERCENT
    requires worth * x <= p.from * y < worth * x + x
    requires p.to * HUNDRED_PERCENT <= worth * percent < (p.to + 1) * HUNDRED_PERCENT
    ensures WithinThree(t, x, y, percent)
  {
    NotForNothing(t, p);
    AtMostExact(p.from, worth, p.to, t.amount, t.paid, x, y, percent);
    LessThanThreeBelow(p.from, worth, p.to, t.amount, t.paid, x, y, percent);
  }

  lemma NotForNothing(t: Trade, p: SettlementPrice)
    requires AtRate(t, p)
    ensures p.from > 0
  {
  }

  // ----- one settlement -----

  /** Trades of one asset only. */
  predicate InAsset(trades: seq<Trade>, a: AssetId) {
    forall i | 0 <= i < |trades| :: trades[i].call.1 == a
  }

  lemma {:induction false} VolumeElsewhere(trades: seq<Trade>, a: AssetId, x: AssetId)
    requires InAsset(trades, a) && x != a
    ensures Volume(trades, x) == 0
  {
    if trades == [] {
    } else {
      VolumeElsewhere(trades[1..], a, x);
    }
  }

  lemma EarliestStays(s: Books, id: OrderId, s': Books)
    requires IsEarliest(DeskOf(s), id) && OrderSettled(s, id, s') && id in s'.settlements
    ensures IsEarliest(DeskOf(s'), id) && s'.settlements[id].asset == s.settlements[id].asset
    ensures s'.settlements[id].balance <= s.settlements[id].balance
  {
  }

  lemma {:induction false} SettleOrderTrades(s0: Books, s: Books, id: OrderId, p: SettlementPrice, settled: nat, max: int)
    returns (trades: seq<Trade>)
    requires Valid(s) && Positive(s) && Priced(s, id, p) && id in s.settlements && settled < max
    requires IsEarliest(DeskOf(s), id)
    requires s.settlements[id].balance <= p.from && Backing(s, s.settlements[id].asset) != Some(s.settlements[id].asset)
    requires SettleOrder(s, id, p, settled, max).Done?
    requires SameTerms(s0, s) && RateIsFeed(s0, s.settlements[id].asset, p)
    ensures var (s', settled') := SettleOrder(s, id, p, settled, max).value;
            && Traded(s0, s, trades, s') && SameTerms(s0, s')
            && InAsset(trades, s.settlements[id].asset) && Volume(trades, s.settlements[id].asset) == settled' - settled
    decreases max - settled
  {
    hide MatchSettlement, SettledFor, SettledAmount, Priced, Positive, Valid, OrderSettled, IsWeakest,
         CallsInRange, SameAssets,
         IsDue, DeskAfter, AtRate, AtFeed, IsEarliest, Traded, SameTerms, Total, TradeMoves;
    var a := s.settlements[id].asset;
    var k := Weakest(s, a).value;
    WeakestFound(s, a);
    var t := MatchIsDue(s, k, id, p, max - settled);
    MatchKeepsPositive(s, k, id, p, max - settled);
    SettleValid(s, k, id, p, max - settled);
    var (s1, amount) := MatchSettlement(s, k, id, p, max - settled).value;
    TradedOnce(s0, s, t, s1);
    MatchKeepsTerms(s, t, s1);
    SameTermsTwice(s0, s, s1);
    trades := [t];
    assert Volume([t], a) == amount by { assert [t][1..] == []; }
    if settled + amount < max && id in s1.settlements {
      EarliestStays(s, id, s1);
      TermsDecide(s, s1, a);
      var rest := SettleOrderTrades(s0, s1, id, p, settled + amount, max);
      trades := [t] + rest;
      TradedThen(s0, s, [t], s1, rest, SettleOrder(s1, id, p, settled + amount, max).value.0);
      VolumeThen([t], rest, a);
    }
  }

  lemma WeakestFound(s: Books, a: AssetId)
    requires Weakest(s, a).Some?
    ensures IsWeakest(s, CallsInRange(s, a), Weakest(s, a).value)
  {
  }

  lemma PutSettledIsUnseen(s: Books, a: AssetId, settled: nat)
    requires IsBit(s, a)
    ensures SameTerms(s, PutSettled(s, a, settled)) && DeskOf(PutSettled(s, a, settled)) == DeskOf(s)
    ensures forall m | IsAccountMeasure(m) :: Total(m, PutSettled(s, a, settled)) == Total(m, s)
  {
    hide Total;
    forall m | IsAccountMeasure(m)
      ensures Total(m, PutSettled(s, a, settled)) == Total(m, s)
    {
      PutSettledConserves(m, s, a, settled);
    }
  }

  /** What trades of an asset settled of it, and of others. */
  ghost predicate Recorded(s: Books, trades: seq<Trade>, s': Books) {
    forall x :: IsBit(s, x) ==> IsBit(s', x) && Settled(s', x) == Settled(s, x) + Volume(trades, x)
  }

  lemma TradedSettled(s0: Books, s: Books, trades: seq<Trade>, s1: Books, a: AssetId, settled: nat)
    requires Traded(s0, s, trades, s1) && SameTerms(s0, s1) && IsBit(s1, a)
    ensures Traded(s0, s, trades, PutSettled(s1, a, settled)) && SameTerms(s0, PutSettled(s1, a, settled))
  {
    hide Total, InTurn, TradesMove, SameTerms, PutSettled;
    PutSettledIsUnseen(s1, a, settled);
    SameTermsTwice(s0, s1, PutSettled(s1, a, settled));
  }

  lemma {:induction false} RecordedSettled(s: Books, s1: Books, a: AssetId, trades: seq<Trade>, settled: nat)
    requires SameAssets(s, s1) && IsBit(s, a) && InAsset(trades, a) && Volume(trades, a) == settled - Settled(s, a)
    ensures Recorded(s, trades, PutSettled(s1, a, settled))
  {
    forall x | IsBit(s, x)
      ensures IsBit(PutSettled(s1, a, settled), x)
      ensures Settled(PutSettled(s1, a, settled), x) == Settled(s, x) + Volume(trades, x)
    {
      if x != a { VolumeElsewhere(trades, a, x); }
    }
  }

  /** One turn of the loop over settlements. */
  lemma SettleFirstTrades(s0: Books, s: Books, id: OrderId, max: int) returns (trades: seq<Trade>)
    requires Valid(s) && Positive(s) && id in s.settlements && IsBit(s, s.settlements[id].asset)
    requires IsEarliest(DeskOf(s), id)
    requires Settled(s, s.settlements[id].asset) < max && SettleFirst(s, id, max).Done?
    requires SameTerms(s0, s)
    ensures var s' := SettleFirst(s, id, max).value;
            Traded(s0, s, trades, s') && SameTerms(s0, s') && Recorded(s, trades, s')
  {
    hide SettleOrder, PriceOf, Valid, Positive, IsEarliest, Traded, SameTerms, AtFeed, AtRate, IsFeed, Total,
         PutSettled, Recorded,
         SameAssets;
    var a, p := s.settlements[id].asset, PriceOf(s, id).value;
    PricedAtFeed(s, id);
    PriceIsFeed(s, id);
    FeedIsThere(s, a, id);
    DiscountRoundsDown(s, id);
    forall t: Trade | t.call.1 == a && AtRate(t, p)
      ensures AtFeed(s0, t)
    {
      FeedAlike(s0, s, t);
    }
    var (s1, settled) := SettleOrder(s, id, p, Settled(s, a), max).value;
    trades := SettleOrderTrades(s0, s, id, p, Settled(s, a), max);
    StillBit(s, s1, a);
    TradedSettled(s0, s, trades, s1, a, settled);
    RecordedSettled(s, s1, a, trades, settled);
  }

  lemma StillBit(s: Books, s1: Books, a: AssetId)
    requires SameAssets(s, s1) && IsBit(s, a)
    ensures IsBit(s1, a)
  {
  }

  lemma RecordedThen(s: Books, first: seq<Trade>, s1: Books, rest: seq<Trade>, s2: Books)
    requires Recorded(s, first, s1) && Recorded(s1, rest, s2)
    ensures Recorded(s, first + rest, s2)
  {
    forall x | IsBit(s, x)
      ensures IsBit(s2, x) && Settled(s2, x) == Settled(s, x) + Volume(first + rest, x)
    {
      VolumeThen(first, rest, x);
    }
  }

  lemma NoTrades(s0: Books, s: Books)
    ensures Traded(s0, s, [], s) && Recorded(s, [], s)
  {
  }

  lemma NextIsEarliest(s: Books, from: AssetId, id: OrderId)
    requires IsNext(s, from, id)
    ensures IsEarliest(DeskOf(s), id)
  {
    assert forall j <- s.settlements :: s.settlements[j].asset == s.settlements[id].asset ==> j in Pending(s, from);
  }

  lemma {:induction false} ClearFromTrades(s0: Books, s: Books, from: AssetId,
                                           known: (AssetId, int)) returns (trades: seq<Trade>)
    requires Valid(s) && Positive(s) && Remembered(s, known) && SameTerms(s0, s)
    requires ClearFrom(s, from, known).Done?
    ensures var s' := ClearFrom(s, from, known).value; Traded(s0, s, trades, s') && Recorded(s, trades, s')
    decreases |Pending(s, from)|, Open(s, from, known)
  {
    hide Valid, Positive, Remembered, SettleFirst, Progressed, IsNext, Exhausted, Cap, CapOf, Traded, SameTerms,
         Recorded, IsEarliest;
    trades := [];
    if Next(s, from).None? {
      NoTrades(s0, s);
    } else {
      var id := Next(s, from).value;
      NextIsPending(s, from, id);
      NextIsEarliest(s, from, id);
      var a := s.settlements[id].asset;
      var max := CapOf(s, a, known);
      RememberedIsRecomputed(s, a, known);
      if Exhausted(s, a, max) {
        if Next(s, a + 1).None? {
          NoTrades(s0, s);
        } else {
          var after := Next(s, a + 1).value;
          NextIsPending(s, a + 1, after);
          SkipProgresses(s, from, id, after);
          trades := ClearFromTrades(s0, s, s.settlements[after].asset, (a, max));
        }
      } else {
        NotExhausted(s, a, max);
        var first := SettleFirstTrades(s0, s, id, max);
        var s1 := SettleFirst(s, id, max).value;
        SettleFirstKeeps(s, id, max);
        SettleFirstProgresses(s, from, id, s1, max);
        RememberedKept(s, s1, (a, max));
        var rest := ClearFromTrades(s0, s1, a, (a, max));
        trades := first + rest;
        TradedThen(s0, s, first, s1, rest, ClearFrom(s1, a, (a, max)).value);
        RecordedThen(s, first, s1, rest, ClearFrom(s1, a, (a, max)).value);
      }
    }
  }

  lemma NotExhausted(s: Books, a: AssetId, max: int)
    requires IsBit(s, a) && !Exhausted(s, a, max)
    ensures Settled(s, a) < max
  {
  }

  /**
   Clearing settlements is a sequence of trades, each of the earliest settlement of its asset with the position that
   has the least collateral for its debt, at the feed less the discount; these are all that happens to settlements and
   positions, all that anyone has or owes more or less of afterwards, and all that is recorded as settled.
   */
  lemma ClearingTrades(s: Books) returns (trades: seq<Trade>)
    requires Valid(s) && Positive(s) && !IsBit(s, CORE) && ClearSettlements(s).Done?
    ensures var s' := ClearSettlements(s).value;
            && InTurn(s, DeskOf(s), trades, DeskOf(s'))
            && (forall a :: IsBit(s, a) ==> IsBit(s', a) && Settled(s', a) == Settled(s, a) + Volume(trades, a))
            && forall u, a ::
                 && WealthOf(s', u, a) == WealthOf(s, u, a) + TradesMove(Wealth(u, a), s, trades)
                 && DebtOf(s', u, a) == DebtOf(s, u, a) + TradesMove(Owes(u, a), s, trades)
  {
    hide Valid, Positive, ClearFrom, SameTerms, InTurn, Total, WealthOf, DebtOf, TradesMove, Progressed;
    TermsStay(s);
    trades := ClearFromTrades(s, s, 0, (CORE, 0));
    SettlementIsCleared(s, CORE);
    var s' := ClearSettlements(s).value;
    forall u, a
      ensures WealthOf(s', u, a) == WealthOf(s, u, a) + TradesMove(Wealth(u, a), s, trades)
      ensures DebtOf(s', u, a) == DebtOf(s, u, a) + TradesMove(Owes(u, a), s, trades)
    {
      WealthIsTotal(s, u, a);
      WealthIsTotal(s', u, a);
      OwesIsTotal(s, u, a);
      OwesIsTotal(s', u, a);
    }
  }

  lemma TermsStay(s: Books)
    ensures SameTerms(s, s)
  {
  }
}

/**
 When each operation of the market goes through, and what it leaves in the books. Together with `StepMoves`,
 which says who has and owes what afterwards, this settles the state after every step.
 */
module TradingOutcomes {
  import opened Wrappers
  import opened Assets
  import opened Sums
  import opened Ledger
  import opened Fills
  import opened Matching
  import opened Trading
  import opened TradingSafety

  /** Nothing but balances and running totals changes, apart from one of the books. */
  ghost predicate Accounts(s: Books, s': Books) {
    s' == s.(balances := s'.balances, coreInOrders := s'.coreInOrders)
  }

  // ----- fees that are fair -----

  /** The fee on what is received of an asset never exceeds it. */
  predicate FairFees(s: Books, a: AssetId) {
    a in s.assets && (s.assets[a].chargesFees ==> s.assets[a].feePercent <= HUNDRED_PERCENT && s.assets[a].minFee == 0)
  }

  lemma FairFeesFit(s: Books, a: AssetId, receives: nat)
    requires FairFees(s, a)
    ensures FeeOf(s, a, receives) <= receives
  {
    MarketFeeBounds(s.assets[a], receives);
  }

  lemma FairFeesKept(s: Books, s': Books, a: AssetId)
    requires FairFees(s, a) && SameAssets(s, s')
    ensures FairFees(s', a)
  {
  }

  // ----- placing, cancelling, requesting -----

  /** An order is placed exactly when it is new, offers what its price says, and its owner has that. */
  lemma PlaceOutcome(s: Books, id: OrderId, o: LimitOrder)
    ensures Step(s, PlaceLimit(id, o)).Some? <==>
              id !in s.limits && o.forSale == o.sellPrice.base.amount && BalanceOf(s, o.seller, o.sellPrice.base.id) >= o.forSale
    ensures Step(s, PlaceLimit(id, o)).Some? ==>
              var s' := Step(s, PlaceLimit(id, o)).value; Accounts(s.(limits := s.limits[id := o]), s')
  {
    hide AdjustBalance;
    BalanceAdjusted(s, o.seller, o.sellPrice.base.id, -(o.forSale as int));
    if Offer(s, o.seller, o.sellPrice.base.id, o.forSale).Some? { OfferFrame(s, o.seller, o.sellPrice.base.id, o.forSale); }
  }

  lemma CancelOutcome(s: Books, id: OrderId)
    ensures Step(s, CancelLimitOrder(id)).Some? <==> id in s.limits
    ensures id in s.limits ==> Accounts(s.(limits := s.limits - {id}), Step(s, CancelLimitOrder(id)).value)
  {
    hide CancelLimit;
    if id in s.limits { CancelLimitFrame(s, id); }
  }

  /**
   A short order is placed when it is new and in the backing asset of what it
   sells, and its owner has the collateral.
   */
  lemma PlaceShortOutcome(s: Books, id: OrderId, o: ShortOrder)
    ensures Step(s, PlaceShort(id, o)).Some? <==>
              id !in s.shorts && Backing(s, o.sellPrice.base.id) == Some(o.sellPrice.quote.id)
              && 0 <= o.availableCollateral <= BalanceOf(s, o.seller, o.sellPrice.quote.id)
    ensures Step(s, PlaceShort(id, o)).Some? ==>
              Accounts(s.(shorts := s.shorts[id := o]), Step(s, PlaceShort(id, o)).value)
  {
    hide AdjustBalance;
    if o.availableCollateral >= 0 {
      BalanceAdjusted(s, o.seller, o.sellPrice.quote.id, -o.availableCollateral);
      if Offer(s, o.seller, o.sellPrice.quote.id, o.availableCollateral).Some? {
        OfferFrame(s, o.seller, o.sellPrice.quote.id, o.availableCollateral);
      }
    }
  }

  lemma CancelShortOutcome(s: Books, id: OrderId)
    ensures Step(s, CancelShortOrder(id)).Some? <==>
              id in s.shorts &&
              BalanceOf(s, s.shorts[id].seller, s.shorts[id].sellPrice.quote.id) + s.shorts[id].availableCollateral >= 0
    ensures Step(s, CancelShortOrder(id)).Some? ==>
              Accounts(s.(shorts := s.shorts - {id}), Step(s, CancelShortOrder(id)).value)
  {
    hide AdjustBalance;
    if id in s.shorts {
      var o := s.shorts[id];
      BalanceAdjusted(s, o.seller, o.sellPrice.quote.id, o.availableCollateral);
      if ReturnCollateral(s, o).Some? { CollateralReturnedFrame(s, o); }
    }
  }

  /** A request goes through when it is new and its owner has the amount, which then waits. */
  lemma RequestOutcome(s: Books, id: OrderId, r: Settlement)
    ensures Step(s, RequestSettlement(id, r)).Some? <==>
              id !in s.settlements && BalanceOf(s, r.owner, r.asset) >= r.balance
    ensures Step(s, RequestSettlement(id, r)).Some? ==>
              Accounts(s.(settlements := s.settlements[id := r]), Step(s, RequestSettlement(id, r)).value)
  {
    hide AdjustBalance;
    BalanceAdjusted(s, r.owner, r.asset, -(r.balance as int));
  }

  // ----- positions changed by their owner -----

  lemma PaidDebtSucceeds(s: Books, u: AccountId, a: AssetId, amount: nat, v: AccountId, b: AssetId)
    requires a in s.assets
    ensures PaidDebt(s, u, a, amount).Some? <==> BalanceOf(s, u, a) >= amount
    ensures PaidDebt(s, u, a, amount).Some? ==>
              BalanceOf(PaidDebt(s, u, a, amount).value, v, b) == BalanceOf(s, v, b) - OnlyIf(u == v && a == b, amount)
  {
    hide AdjustBalance;
    BalanceAdjusted(s, u, a, -(amount as int));
  }

  lemma CollateralizedOutcome(s: Books, u: AccountId, a: AssetId, amount: int)
    ensures Collateralized(s, u, a, amount).Some? <==> amount <= 0 || BalanceOf(s, u, a) >= amount
    ensures Collateralized(s, u, a, amount).Some? ==> Accounts(s, Collateralized(s, u, a, amount).value)
  {
    hide AdjustBalance, AddCore;
    if amount > 0 { BalanceAdjusted(s, u, a, -amount); }
  }

  /**
   An update of a position covers less than the whole debt from the borrower's balance, and adds collateral from it;
   it goes through when the balances suffice and the position has a call price afterwards, which becomes its own.
   */
  lemma CoverOutcome(s: Books, k: CallKey, debt: nat, add: int, ratio: Option<Ratio>)
    ensures Step(s, Cover(k, debt, add, ratio)).Some? <==>
              && k in s.calls && s.calls[k].debtAsset in s.assets && debt < s.calls[k].debt
              && var (o, a, b) := (s.calls[k], s.calls[k].collateralAsset, s.calls[k].debtAsset);
                 && BalanceOf(s, o.borrower, b) >= debt
                 && (add <= 0 || BalanceOf(s, o.borrower, a) - OnlyIf(a == b, debt) >= add)
                 && CallPrice(o.debt - debt, b, o.collateral + add, a, RatioAfter(o, ratio)).Some?
    ensures Step(s, Cover(k, debt, add, ratio)).Some? ==>
              var s', o := Step(s, Cover(k, debt, add, ratio)).value, s.calls[k];
              && s' == s.(balances := s'.balances, coreInOrders := s'.coreInOrders, assets := s'.assets, calls := s'.calls)
              && SameAssets(s, s') && k in s'.calls && s'.calls == s.calls[k := s'.calls[k]]
              && var o' := s'.calls[k];
                 && o' == o.(debt := o.debt - debt, collateral := o.collateral + add, maintenanceRatio := RatioAfter(o, ratio),
                             callPrice := o'.callPrice)
                 && CallPrice(o'.debt, o'.debtAsset, o'.collateral, o'.collateralAsset, o'.maintenanceRatio) == Some(o'.callPrice)
  {
    hide CallPrice, PaidDebt, Collateralized, SameAssets;
    if k in s.calls && s.calls[k].debtAsset in s.assets && debt < s.calls[k].debt {
      var o := s.calls[k];
      var o' := o.(debt := o.debt - debt, collateral := o.collateral + add, maintenanceRatio := RatioAfter(o, ratio));
      var price := CallPrice(o'.debt, o'.debtAsset, o'.collateral, o'.collateralAsset, o'.maintenanceRatio);
      PaidDebtSucceeds(s, o.borrower, o.debtAsset, debt, o.borrower, o.collateralAsset);
      if PaidDebt(s, o.borrower, o.debtAsset, debt).Some? && price.Some? {
        var s1 := PaidDebt(s, o.borrower, o.debtAsset, debt).value;
        DebtPaidFrame(s, o.borrower, o.debtAsset, debt);
        CollateralizedOutcome(PutCall(s1, k, o'.(callPrice := price.value)), o.borrower, o.collateralAsset, add);
        if Covered(s, k, debt, add, ratio).Some? { SameAssetsAlike(s, s1, Covered(s, k, debt, add, ratio).value); }
      }
    }
  }

  lemma SameAssetsAlike(s: Books, s1: Books, s': Books)
    requires SameAssets(s, s1) && s'.assets == s1.assets
    ensures SameAssets(s, s')
  {
  }

  function RatioAfter(o: CallOrder, ratio: Option<Ratio>): Ratio {
    if ratio.Some? then ratio.value else o.maintenanceRatio
  }

  /** A position is closed by its owner when the balance covers its debt. */
  lemma CloseOutcome(s: Books, k: CallKey)
    ensures Step(s, Close(k)).Some? <==>
              && k in s.calls && s.calls[k].debtAsset in s.assets && s.calls[k].collateral >= 0
              && BalanceOf(s, s.calls[k].borrower, s.calls[k].debtAsset) >= s.calls[k].debt
    ensures Step(s, Close(k)).Some? ==>
              var s' := Step(s, Close(k)).value;
              && s' == s.(balances := s'.balances, coreInOrders := s'.coreInOrders, assets := s'.assets, calls := s.calls - {k})
              && SameAssets(s, s')
  {
    hide PaidDebt, Refund;
    if k in s.calls && s.calls[k].debtAsset in s.assets {
      var o := s.calls[k];
      PaidDebtSucceeds(s, o.borrower, o.debtAsset, o.debt, 0, 0);
      if PaidDebt(s, o.borrower, o.debtAsset, o.debt).Some? { DebtPaidFrame(s, o.borrower, o.debtAsset, o.debt); }
    }
  }

  // ----- margin calls -----

  /** The call price of a position is in its collateral and its debt. */
  predicate CallPriced(o: CallOrder) {
    o.callPrice.base.id == o.collateralAsset && o.callPrice.quote.id == o.debtAsset
  }

  /** The order gives its asset for at least as much collateral per unit as the call price has. */
  predicate AtCallPrice(o: CallOrder, p: MarketPrice) {
    o.callPrice.base.amount * p.base.amount <= p.quote.amount * o.callPrice.quote.amount
  }

  /** At this price the whole debt costs, rounded down, no more than the collateral. */
  predicate Affords(o: CallOrder, p: MarketPrice) {
    && o.debt * p.quote.amount < (MAX_SHARE_SUPPLY + 1) * p.base.amount
    && o.debt * p.quote.amount < (o.collateral + 1) * p.base.amount
  }

  /** What an amount of debt costs at a price, rounded down. */
  predicate Costs(amount: nat, p: MarketPrice, pays: nat) {
    pays * p.base.amount <= amount * p.quote.amount < (pays + 1) * p.base.amount
  }

  lemma TimesCosts(amount: nat, p: MarketPrice)
    requires Times(amount, p.base.id, p).Some?
    ensures Costs(amount, p, Times(amount, p.base.id, p).value)
  {
    TimesRoundsDown(amount, p.base.id, p);
  }

  lemma WholeIsAfforded(o: CallOrder, p: MarketPrice)
    requires p.base.id == o.debtAsset
    ensures var whole := Times(o.debt, o.debtAsset, p);
            whole.Some? && whole.value <= o.collateral <==> Affords(o, p)
  {
    hide Times;
    TimesSucceeds(o.debt, o.debtAsset, p);
    var whole := Times(o.debt, o.debtAsset, p);
    if whole.Some? {
      TimesCosts(o.debt, p);
      var y := p.base.amount;
      if whole.value <= o.collateral {
        ProductGrows(whole.value + 1, o.collateral + 1, y);
      } else {
        ProductGrows(o.collateral + 1, whole.value, y);
      }
    }
  }

  lemma CalledAtCallPrice(o: CallOrder, p: MarketPrice)
    requires CallPriced(o) && p.base.id == o.debtAsset && p.quote.id == o.collateralAsset
    ensures AtMost(p, o.callPrice.Inverse()) <==> AtCallPrice(o, p)
  {
  }

  /** The fill of the order that a margin call buys from. */
  function OfferFilled(s: Books, order: OrderId, isLimit: bool, pays: nat, receives: nat): Option<(Books, bool)>
    requires OnOffer(s, order, isLimit) && pays <= OfferSize(s, order, isLimit)
  {
    if isLimit then FillLimit(s, order, pays, receives) else FillShort(s, order, pays, receives)
  }

  /**
   A margin call goes through exactly when the order is at the call price or beyond, the whole debt is affordable at
   its price, and the order can be filled. The position then buys as much as it owes and the order has, at the
   price of the order.
   */
  lemma MarginCallOutcome(s: Books, k: CallKey, order: OrderId, isLimit: bool) returns (pays: nat)
    requires CanCall(s, k, order, isLimit) && CallPriced(s.calls[k])
    ensures var o, p := s.calls[k], OfferPrice(s, order, isLimit);
            var amount := Min(o.debt, OfferSize(s, order, isLimit));
            && (Affords(o, p) ==> Costs(amount, p, pays) && pays <= o.collateral)
            && (Step(s, MarginCall(k, order, isLimit)).Some? <==>
                  && o.debtAsset in s.assets && AtCallPrice(o, p) && Affords(o, p)
                  && FillCall(s, k, pays, amount).Some? && OnOffer(FillCall(s, k, pays, amount).value.0, order, isLimit)
                  && amount <= OfferSize(FillCall(s, k, pays, amount).value.0, order, isLimit)
                  && OfferFilled(FillCall(s, k, pays, amount).value.0, order, isLimit, amount, pays).Some?)
            && (Step(s, MarginCall(k, order, isLimit)).Some? ==>
                  Step(s, MarginCall(k, order, isLimit)).value ==
                  OfferFilled(FillCall(s, k, pays, amount).value.0, order, isLimit, amount, pays).value.0)
  {
    hide Times, FillCall, FillLimit, FillShort, AtMost, Affords, AtCallPrice;
    var o, p := s.calls[k], OfferPrice(s, order, isLimit);
    var amount := Min(o.debt, OfferSize(s, order, isLimit));
    CalledAtCallPrice(o, p);
    WholeIsAfforded(o, p);
    pays := 0;
    if Affords(o, p) {
      TimesIsMonotone(amount, o.debt, o.debtAsset, p);
      TimesCosts(amount, p);
      pays := Times(amount, o.debtAsset, p).value;
      if FillCall(s, k, pays, amount).Some? { FillCallFrame(s, k, pays, amount); }
    }
  }

  /**
   With a limit order a margin call goes through when, besides, the fee does not overdraw its seller and its rest is
   within the largest supply. The position ends, or is left with the rest of its debt and collateral, and so is the order.
   */
  lemma MarginCallOnLimit(s: Books, k: CallKey, order: OrderId) returns (pays: nat)
    requires CanCall(s, k, order, true) && CallPriced(s.calls[k])
    ensures var (o, l) := (s.calls[k], s.limits[order]);
            var (p, a) := (l.sellPrice, o.collateralAsset);
            var amount := Min(o.debt, l.forSale);
            var released := OnlyIf(l.seller == o.borrower && amount == o.debt, o.collateral - pays);
            && (Affords(o, p) ==> Costs(amount, p, pays) && pays <= o.collateral)
            && (Step(s, MarginCall(k, order, true)).Some? <==>
                  && AtCallPrice(o, p) && Affords(o, p) && o.debtAsset in s.assets && a in s.assets
                  && FeeOf(s, a, pays) <= pays + BalanceOf(s, l.seller, a) + released
                  && (amount == l.forSale || (l.forSale - amount) * p.quote.amount < (MAX_SHARE_SUPPLY + 1) * p.base.amount))
            && (Step(s, MarginCall(k, order, true)).Some? ==>
                  var s' := Step(s, MarginCall(k, order, true)).value;
                  && s'.shorts == s.shorts && s'.settlements == s.settlements
                  && s'.calls == (if amount == o.debt then s.calls - {k}
                                  else s.calls[k := o.(debt := o.debt - amount, collateral := o.collateral - pays)])
                  && s'.limits == (if AsksNothing(l.(forSale := l.forSale - amount)) then s.limits - {order}
                                   else s.limits[order := l.(forSale := l.forSale - amount)]))
  {
    hide Step, FillCall, FillLimit, AtMost, Affords, AtCallPrice, FeeOf, AsksNothing, Costs;
    pays := MarginCallOutcome(s, k, order, true);
    var (o, l) := (s.calls[k], s.limits[order]);
    var amount := Min(o.debt, l.forSale);
    FillCallSucceeds(s, k, pays, amount);
    if FillCall(s, k, pays, amount).Some? && Affords(o, l.sellPrice) {
      FillCallFrame(s, k, pays, amount);
      var s1 := FillCall(s, k, pays, amount).value.0;
      FillCallAssets(s, k, pays, amount);
      FillCallBalances(s, k, pays, amount, l.seller, o.collateralAsset);
      FeesStay(s, s1, o.collateralAsset, pays);
      FillLimitSucceeds(s1, order, amount, pays);
      if FillLimit(s1, order, amount, pays).Some? { FillLimitFrame(s1, order, amount, pays); }
    }
  }

  lemma FillCallAssets(s: Books, k: CallKey, pays: nat, receives: nat)
    requires k in s.calls && receives <= s.calls[k].debt && FillCall(s, k, pays, receives).Some?
    ensures SameAssets(s, FillCall(s, k, pays, receives).value.0)
  {
    hide FillCall;
    FillCallFrame(s, k, pays, receives);
  }

  /** Only the borrower of a position that ends has a balance changed. */
  lemma FillCallBalances(s: Books, k: CallKey, pays: nat, receives: nat, u: AccountId, a: AssetId)
    requires k in s.calls && receives <= s.calls[k].debt && FillCall(s, k, pays, receives).Some?
    ensures var o := s.calls[k];
            BalanceOf(FillCall(s, k, pays, receives).value.0, u, a) ==
            BalanceOf(s, u, a) + OnlyIf(u == o.borrower && a == o.collateralAsset && receives == o.debt, o.collateral - pays)
  {
    hide AdjustBalance, AddCore;
    var o := s.calls[k];
    var s1, rest := ReduceCall(s, k, pays, receives), o.collateral - pays;
    BalanceAdjusted(s1, o.borrower, o.collateralAsset, rest);
    if receives == o.debt {
      var s2 := AdjustBalance(s1, o.borrower, o.collateralAsset, rest).value;
      assert BalanceOf(s2, u, a) == BalanceOf(s1, u, a) + OnlyIf(o.borrower == u && o.collateralAsset == a, rest);
      assert FillCall(s, k, pays, receives).value.0.balances == s2.balances;
    }
  }

  // ----- matches -----

  /**
   One side pays all it has or the other does; neither gets a better rate than the
   price, but for one unit of rounding.
   */
  predicate Exchanges(usd: nat, core: nat, x: int, y: int, usdPays: nat, corePays: nat) {
    && usdPays <= usd && corePays <= core && (usdPays == usd || corePays == core)
    && if usdPays < usd then usdPays * y <= core * x < usdPays * y + y else corePays * x <= usd * y < corePays * x + x
  }

  lemma AmountsExchange(usd: nat, usdAsset: AssetId, core: nat, coreAsset: AssetId, p: MarketPrice)
    requires Between(p, usdAsset, coreAsset) && MatchAmounts(usd, usdAsset, core, coreAsset, p).Some?
    ensures var (usdPays, corePays) := MatchAmounts(usd, usdAsset, core, coreAsset, p).value;
            var (x, y) := Rate(p, usdAsset);
            Exchanges(usd, core, x, y, usdPays, corePays)
  {
    hide MatchAmounts;
    MatchRounding(usd, usdAsset, core, coreAsset, p);
  }

  /** The amounts of a match are there when what the asker has is worth no more than the largest supply. */
  lemma AmountsSucceed(usd: nat, usdAsset: AssetId, core: nat, coreAsset: AssetId, p: MarketPrice)
    requires Between(p, usdAsset, coreAsset) && usdAsset != coreAsset && core <= MAX_SHARE_SUPPLY
    ensures var (x, y) := Rate(p, usdAsset);
            MatchAmounts(usd, usdAsset, core, coreAsset, p).Some? <==> core * x < (MAX_SHARE_SUPPLY + 1) * y
  {
    hide Times;
    var (x, y) := Rate(p, usdAsset);
    TimesSucceeds(core, coreAsset, p);
    if Times(core, coreAsset, p).Some? {
      TimesRoundsDown(core, coreAsset, p);
      var worth := Times(core, coreAsset, p).value;
      TimesSucceeds(usd, usdAsset, p);
      if usd <= worth {
        ProductGrows(usd, worth, y);
        ProductGrows(core, MAX_SHARE_SUPPLY, x);
      }
    }
  }

  /** A match of two limit orders goes through when both can be filled; they shrink by what they pay. */
  lemma MatchLimitsOutcome(s: Books, bid: OrderId, ask: OrderId, p: MarketPrice) returns (bidPays: nat, askPays: nat)
    requires CanMatchLimits(s, bid, ask, p) && LimitAmounts(s, bid, ask, p).Some?
    ensures var (b, a) := (s.limits[bid], s.limits[ask]);
            var (x, y) := Rate(p, b.sellPrice.base.id);
            Exchanges(b.forSale, a.forSale, x, y, bidPays, askPays)
    ensures var s1 := FillLimit(s, bid, bidPays, askPays);
            Step(s, MatchLimitOrders(bid, ask, p)).Some? <==>
              s1.Some? && ask in s1.value.0.limits && askPays <= s1.value.0.limits[ask].forSale
              && FillLimit(s1.value.0, ask, askPays, bidPays).Some?
    ensures Step(s, MatchLimitOrders(bid, ask, p)).Some? ==>
              var (b, a, s') := (s.limits[bid], s.limits[ask], Step(s, MatchLimitOrders(bid, ask, p)).value);
              && s' == s.(balances := s'.balances, coreInOrders := s'.coreInOrders, assets := s'.assets, limits := s'.limits)
              && SameAssets(s, s') && s'.limits.Keys <= s.limits.Keys
              && Left(s, s', bid, bidPays) && Left(s, s', ask, askPays)
              && forall id <- s.limits :: id != bid && id != ask ==> id in s'.limits && s'.limits[id] == s.limits[id]
  {
    hide FillLimit, MatchAmounts, AsksNothing;
    var (b, a) := (s.limits[bid], s.limits[ask]);
    AmountsExchange(b.forSale, b.sellPrice.base.id, a.forSale, a.sellPrice.base.id, p);
    bidPays, askPays := LimitAmounts(s, bid, ask, p).value.0, LimitAmounts(s, bid, ask, p).value.1;
    if FillLimit(s, bid, bidPays, askPays).Some? {
      FillLimitFrame(s, bid, bidPays, askPays);
      var s1 := FillLimit(s, bid, bidPays, askPays).value.0;
      if FillLimit(s1, ask, askPays, bidPays).Some? {
        FillLimitFrame(s1, ask, askPays, bidPays);
        SameAssetsTwice(s, s1, FillLimit(s1, ask, askPays, bidPays).value.0);
      }
    }
  }

  /** What is left of a limit order that paid this much; nothing when it is not worth a unit of what it asks for. */
  ghost predicate Left(s: Books, s': Books, id: OrderId, pays: nat)
    requires id in s.limits && pays <= s.limits[id].forSale
  {
    var o := s.limits[id].(forSale := s.limits[id].forSale - pays);
    if AsksNothing(o) then id !in s'.limits else id in s'.limits && s'.limits[id] == o
  }

  /**
   A match of a limit order with a short order goes through when both can be filled: they shrink by what they pay, and
   the position of the short seller grows by the debt, and by its share of collateral and what the bidder pays, less the fee.
   */
  lemma MatchShortOutcome(s: Books, bid: OrderId, ask: OrderId, p: MarketPrice)
    returns (bidPays: nat, askPays: nat, share: int)
    requires CanMatchShort(s, bid, ask, p) && ShortAmounts(s, bid, ask, p).Some?
    ensures var (b, a) := (s.limits[bid], s.shorts[ask]);
            var (x, y) := Rate(p, b.sellPrice.base.id);
            Exchanges(b.forSale, a.forSale, x, y, bidPays, askPays)
    ensures var s1 := FillLimit(s, bid, bidPays, askPays);
            Step(s, MatchShortOrder(bid, ask, p)).Some? <==>
              s1.Some? && ask in s1.value.0.shorts && askPays <= s1.value.0.shorts[ask].forSale
              && FillShort(s1.value.0, ask, askPays, bidPays).Some?
    ensures Step(s, MatchShortOrder(bid, ask, p)).Some? ==>
              var (b, a, s') := (s.limits[bid], s.shorts[ask], Step(s, MatchShortOrder(bid, ask, p)).value);
              var (u, v) := (a.sellPrice.quote.id, a.sellPrice.base.id);
              && s'.settlements == s.settlements && SameAssets(s, s') && IsShare(a, askPays, share)
              && s'.limits == (if AsksNothing(b.(forSale := b.forSale - bidPays)) then s.limits - {bid}
                               else s.limits[bid := b.(forSale := b.forSale - bidPays)])
              && ShortShrinks(s, ask, askPays, share, s')
              && CallGrows(s, (a.seller, v), askPays, share + bidPays - FeeOf(s, u, bidPays), u, a.maintenanceRatio, s')
  {
    hide FillLimit, FillShort, MatchAmounts, FeeOf, CallPrice, AsksNothing, IsShare;
    var (b, a) := (s.limits[bid], s.shorts[ask]);
    AmountsExchange(b.forSale, b.sellPrice.base.id, a.forSale, a.sellPrice.base.id, p);
    bidPays, askPays, share := ShortAmounts(s, bid, ask, p).value.0, ShortAmounts(s, bid, ask, p).value.1, 0;
    if FillLimit(s, bid, bidPays, askPays).Some? {
      FillLimitFrame(s, bid, bidPays, askPays);
      var s1 := FillLimit(s, bid, bidPays, askPays).value.0;
      if FillShort(s1, ask, askPays, bidPays).Some? {
        FeesStay(s, s1, a.sellPrice.quote.id, bidPays);
        share := FillShortFrame(s1, ask, askPays, bidPays);
        SameAssetsTwice(s, s1, FillShort(s1, ask, askPays, bidPays).value.0);
      }
    }
  }

  /** The least of three amounts. */
  predicate IsLeast(n: int, a: int, b: int, c: int) {
    n <= a && n <= b && n <= c && (n == a || n == b || n == c)
  }

  lemma SettledIsLeast(s: Books, k: CallKey, id: OrderId, at: SettlementPrice, max: nat) returns (pays: nat)
    requires k in s.calls && id in s.settlements
    ensures var amount := SettledAmount(s, k, id, max);
            && IsLeast(amount, s.settlements[id].balance, s.calls[k].debt, max)
            && (at.from > 0 ==> pays * at.from <= amount * at.to < (pays + 1) * at.from)
            && SettledFor(amount, at) == if at.from > 0 && pays <= MAX_SHARE_SUPPLY then Some(pays) else None
  {
    var amount := SettledAmount(s, k, id, max);
    pays := 0;
    if at.from > 0 {
      FloorBounds(amount * at.to, at.from);
      pays := amount * at.to / at.from;
    }
  }

  lemma SettleSucceeds(s: Books, k: CallKey, id: OrderId, at: SettlementPrice, max: nat, pays: nat)
    requires k in s.calls && id in s.settlements && s.settlements[id].asset == s.calls[k].debtAsset
    requires SettledFor(SettledAmount(s, k, id, max), at) == Some(pays)
    ensures var (o, r, amount) := (s.calls[k], s.settlements[id], SettledAmount(s, k, id, max));
            var (a, rest) := (o.collateralAsset, o.collateral - pays);
            var released := OnlyIf(r.owner == o.borrower && amount == o.debt, rest);
            MatchSettlement(s, k, id, at, max).Some? <==>
              && o.debtAsset in s.assets && a in s.assets
              && (amount == o.debt ==> BalanceOf(s, o.borrower, a) + rest >= 0)
              && FeeOf(s, a, pays) <= pays + BalanceOf(s, r.owner, a) + released
  {
    hide FillCall, FillSettlement, FeeOf, SettledFor, BalanceOf;
    var (o, r, amount) := (s.calls[k], s.settlements[id], SettledAmount(s, k, id, max));
    FillCallSucceeds(s, k, pays, amount);
    if FillCall(s, k, pays, amount).Some? {
      FillCallFrame(s, k, pays, amount);
      FillCallAssets(s, k, pays, amount);
      var s1 := FillCall(s, k, pays, amount).value.0;
      FillCallBalances(s, k, pays, amount, r.owner, o.collateralAsset);
      FeesStay(s, s1, o.collateralAsset, pays);
      FillSettlementSucceeds(s1, id, amount, o.collateralAsset, pays);
    }
  }

  lemma SettleLeaves(s: Books, k: CallKey, id: OrderId, at: SettlementPrice, max: nat, pays: nat)
    requires k in s.calls && id in s.settlements && s.settlements[id].asset == s.calls[k].debtAsset
    requires MatchSettlement(s, k, id, at, max).Some? && SettledFor(SettledAmount(s, k, id, max), at) == Some(pays)
    ensures var (o, r, amount) := (s.calls[k], s.settlements[id], SettledAmount(s, k, id, max));
            var s' := MatchSettlement(s, k, id, at, max).value.0;
            && s'.limits == s.limits && s'.shorts == s.shorts && SameAssets(s, s')
            && s'.calls == (if amount == o.debt then s.calls - {k}
                            else s.calls[k := o.(debt := o.debt - amount, collateral := o.collateral - pays)])
            && s'.settlements == (if amount == r.balance then s.settlements - {id}
                                  else s.settlements[id := r.(balance := r.balance - amount)])
  {
    hide FillCall, FillSettlement, FeeOf, SameAssets, SettledFor;
    var amount, a := SettledAmount(s, k, id, max), s.calls[k].collateralAsset;
    FillCallFrame(s, k, pays, amount);
    FillCallAssets(s, k, pays, amount);
    var s1 := FillCall(s, k, pays, amount).value.0;
    FillSettlementFrame(s1, id, amount, a, pays);
    SettledAssets(s, s1, a, pays, FillSettlement(s1, id, amount, a, pays).value.0);
  }

  /**
   A settlement takes the least of what it asks for, what the position owes and the volume left, for its exact worth
   rounded down; it goes through unless that is above the largest supply, a fee overdraws its owner,
   or a position that ends cannot pay.
   */
  lemma SettleOutcome(s: Books, k: CallKey, id: OrderId, at: SettlementPrice, max: nat) returns (amount: nat, pays: nat)
    requires k in s.calls && id in s.settlements && s.settlements[id].asset == s.calls[k].debtAsset
    ensures IsLeast(amount, s.settlements[id].balance, s.calls[k].debt, max)
    ensures at.from > 0 ==> pays * at.from <= amount * at.to < (pays + 1) * at.from
    ensures var (o, r) := (s.calls[k], s.settlements[id]);
            var (a, rest) := (o.collateralAsset, o.collateral - pays);
            var released := OnlyIf(r.owner == o.borrower && amount == o.debt, rest);
            Step(s, Settle(k, id, at, max)).Some? <==>
              && at.from > 0 && pays <= MAX_SHARE_SUPPLY && o.debtAsset in s.assets && a in s.assets
              && (amount == o.debt ==> BalanceOf(s, o.borrower, a) + rest >= 0)
              && FeeOf(s, a, pays) <= pays + BalanceOf(s, r.owner, a) + released
    ensures Step(s, Settle(k, id, at, max)).Some? ==>
              var (o, r, s') := (s.calls[k], s.settlements[id], Step(s, Settle(k, id, at, max)).value);
              && s'.limits == s.limits && s'.shorts == s.shorts && SameAssets(s, s')
              && s'.calls == (if amount == o.debt then s.calls - {k}
                              else s.calls[k := o.(debt := o.debt - amount, collateral := o.collateral - pays)])
              && s'.settlements == (if amount == r.balance then s.settlements - {id}
                                    else s.settlements[id := r.(balance := r.balance - amount)])
  {
    hide MatchSettlement, FeeOf, SameAssets, SettledFor, SettledAmount, BalanceOf;
    amount := SettledAmount(s, k, id, max);
    pays := SettledIsLeast(s, k, id, at, max);
    if SettledFor(amount, at).Some? {
      SettleSucceeds(s, k, id, at, max, pays);
      if MatchSettlement(s, k, id, at, max).Some? { SettleLeaves(s, k, id, at, max, pays); }
    } else {
      assert MatchSettlement(s, k, id, at, max).None? by { NoAmountNoMatch(s, k, id, at, max); }
    }
  }

  lemma NoAmountNoMatch(s: Books, k: CallKey, id: OrderId, at: SettlementPrice, max: nat)
    requires k in s.calls && id in s.settlements && s.settlements[id].asset == s.calls[k].debtAsset
    requires SettledFor(SettledAmount(s, k, id, max), at).None?
    ensures MatchSettlement(s, k, id, at, max).None?
  {
    hide SettledFor, SettledAmount;
  }

  lemma SettledAssets(s: Books, s1: Books, a: AssetId, receives: nat, s': Books)
    requires SameAssets(s, s1) && a in s1.assets && s'.assets == PayFees(s1, a, receives).0.assets
    ensures SameAssets(s, s')
  {
  }

  // ----- call prices stay in the assets of their positions -----

  ghost predicate AllCallPriced(s: Books) {
    forall k <- s.calls :: CallPriced(s.calls[k])
  }

  lemma CallPriceIsPriced(debt: nat, debtAsset: AssetId, collateral: int, collateralAsset: AssetId, ratio: Ratio)
    requires CallPrice(debt, debtAsset, collateral, collateralAsset, ratio).Some?
    ensures var p := CallPrice(debt, debtAsset, collateral, collateralAsset, ratio).value;
            p.base.id == collateralAsset && p.quote.id == debtAsset
  {
  }

  lemma GrownIsPriced(s: Books, k: CallKey, debt: nat, collateral: int, a: AssetId, ratio: Ratio, s': Books)
    requires AllCallPriced(s) && CallGrows(s, k, debt, collateral, a, ratio, s')
    ensures AllCallPriced(s')
  {
    hide CallPrice;
    var o := s'.calls[k];
    CallPriceIsPriced(o.debt, o.debtAsset, o.collateral, o.collateralAsset, ratio);
  }

  lemma MarginCallIsPriced(s: Books, k: CallKey, order: OrderId, isLimit: bool)
    requires AllCallPriced(s) && CanCall(s, k, order, isLimit) && Step(s, MarginCall(k, order, isLimit)).Some?
    ensures AllCallPriced(Step(s, MarginCall(k, order, isLimit)).value)
  {
    hide Step, FillCall, FillLimit, FillShort, CallGrows, IsShare, ShortShrinks, AtCallPrice, Affords, Costs;
    var pays := MarginCallOutcome(s, k, order, isLimit);
    var amount := Min(s.calls[k].debt, OfferSize(s, order, isLimit));
    FillCallFrame(s, k, pays, amount);
    var s1 := FillCall(s, k, pays, amount).value.0;
    if isLimit {
      FillLimitFrame(s1, order, amount, pays);
    } else {
      var o := s1.shorts[order];
      var share := FillShortFrame(s1, order, amount, pays);
      GrownIsPriced(s1, (o.seller, o.sellPrice.base.id), amount, share + pays - FeeOf(s1, o.sellPrice.quote.id, pays),
                    o.sellPrice.quote.id, o.maintenanceRatio, FillShort(s1, order, amount, pays).value.0);
    }
  }

  lemma MatchShortIsPriced(s: Books, bid: OrderId, ask: OrderId, p: MarketPrice)
    requires AllCallPriced(s) && CanMatchShort(s, bid, ask, p) && ShortAmounts(s, bid, ask, p).Some?
    requires Step(s, MatchShortOrder(bid, ask, p)).Some?
    ensures AllCallPriced(Step(s, MatchShortOrder(bid, ask, p)).value)
  {
    hide Step, CallGrows, IsShare, ShortShrinks, ShortAmounts, FeeOf, AllCallPriced, AsksNothing, Exchanges, SameAssets;
    var bidPays, askPays, share := MatchShortOutcome(s, bid, ask, p);
    var a := s.shorts[ask];
    GrownIsPriced(s, (a.seller, a.sellPrice.base.id), askPays, share + bidPays - FeeOf(s, a.sellPrice.quote.id, bidPays),
                  a.sellPrice.quote.id, a.maintenanceRatio, Step(s, MatchShortOrder(bid, ask, p)).value);
  }

  lemma CoverIsPriced(s: Books, k: CallKey, debt: nat, add: int, ratio: Option<Ratio>)
    requires AllCallPriced(s) && Step(s, Cover(k, debt, add, ratio)).Some?
    ensures AllCallPriced(Step(s, Cover(k, debt, add, ratio)).value)
  {
    hide Step, CallPrice;
    CoverOutcome(s, k, debt, add, ratio);
    var o := Step(s, Cover(k, debt, add, ratio)).value.calls[k];
    CallPriceIsPriced(o.debt, o.debtAsset, o.collateral, o.collateralAsset, o.maintenanceRatio);
  }

  /** What a match, a margin call or a settlement needs to go through. */
  lemma StepIsMatched(s: Books, op: Op)
    requires Step(s, op).Some?
    ensures op.MatchLimitOrders? ==>
              CanMatchLimits(s, op.bid, op.ask, op.price) && LimitAmounts(s, op.bid, op.ask, op.price).Some?
    ensures op.MatchShortOrder? ==>
              CanMatchShort(s, op.bid, op.ask, op.price) && ShortAmounts(s, op.bid, op.ask, op.price).Some?
    ensures op.MarginCall? ==> CanCall(s, op.call, op.order, op.isLimit)
    ensures op.Settle? ==>
              op.call in s.calls && op.id in s.settlements && s.settlements[op.id].asset == s.calls[op.call].debtAsset
  {
    hide FillLimit, FillShort, FillCall, FillSettlement, LimitAmounts, ShortAmounts, Times, Covered, Closed;
  }

  lemma StepKeepsCallPriced(s: Books, op: Op)
    requires AllCallPriced(s) && Step(s, op).Some?
    ensures AllCallPriced(Step(s, op).value)
  {
    hide Step, AllCallPriced, CanMatchLimits, CanMatchShort, CanCall, LimitAmounts, ShortAmounts;
    StepIsMatched(s, op);
    var s' := Step(s, op).value;
    match op
    case PlaceLimit(id, o) => PlaceOutcome(s, id, o); SameCallsPriced(s, s');
    case CancelLimitOrder(id) => CancelOutcome(s, id); SameCallsPriced(s, s');
    case PlaceShort(id, o) => PlaceShortOutcome(s, id, o); SameCallsPriced(s, s');
    case CancelShortOrder(id) => CancelShortOutcome(s, id); SameCallsPriced(s, s');
    case MatchLimitOrders(bid, ask, p) => var _, _ := MatchLimitsOutcome(s, bid, ask, p); SameCallsPriced(s, s');
    case MatchShortOrder(bid, ask, p) => MatchShortIsPriced(s, bid, ask, p);
    case MarginCall(k, order, isLimit) => MarginCallIsPriced(s, k, order, isLimit);
    case RequestSettlement(id, r) => RequestOutcome(s, id, r); SameCallsPriced(s, s');
    case Settle(k, id, at, max) =>
      var amount, pays := SettleOutcome(s, k, id, at, max);
      FewerCallsPriced(s, s');
    case Cover(k, debt, add, ratio) => CoverIsPriced(s, k, debt, add, ratio);
    case Close(k) => CloseOutcome(s, k); FewerCallsPriced(s, s');
  }

  lemma SameCallsPriced(s: Books, s': Books)
    requires AllCallPriced(s) && s'.calls == s.calls
    ensures AllCallPriced(s')
  {
  }

  /** A position is gone, or has another debt and collateral. */
  lemma FewerCallsPriced(s: Books, s': Books)
    requires AllCallPriced(s) && s'.calls.Keys <= s.calls.Keys
    requires forall l <- s'.calls ::
               s'.calls[l] == s.calls[l].(debt := s'.calls[l].debt, collateral := s'.calls[l].collateral)
    ensures AllCallPriced(s')
  {
  }

  /** So what is said of margin calls here applies throughout every run from books without positions. */
  lemma {:induction false} RunKeepsCallPriced(s: Books, ops: seq<Op>)
    requires AllCallPriced(s)
    ensures AllCallPriced(Run(s, ops))
    decreases |ops|
  {
    hide AllCallPriced, Step;
    if ops == [] {
    } else {
      if Step(s, ops[0]).Some? { StepKeepsCallPriced(s, ops[0]); }
      RunKeepsCallPriced(Apply(s, ops[0]), ops[1..]);
    }
  }
}

/**
 The market as the database keeps it: books that every operation updates in place. A method
 returns whether it went through; when it did not, it stands for an exception, and the
 session that the caller opened undoes whatever was written.
 */
module MarketDatabase {
  import opened Wrappers
  import opened Assets
  import opened Ledger
  import opened Fills
  import opened Matching
  import opened Trading
  import opened TradingSafety
  import opened LimitBook
  import opened Settling

  class Market {
    var balances: map<(AccountId, AssetId), nat>
    var limits: map<OrderId, LimitOrder>
    var shorts: map<OrderId, ShortOrder>
    var calls: map<(AccountId, AssetId), CallOrder>
    var settlements: map<OrderId, Settlement>
    var assets: map<AssetId, AssetData>
    var coreInOrders: map<AccountId, int>

    function State(): Books
      reads this
    {
      Books(balances, limits, shorts, calls, settlements, assets, coreInOrders)
    }

    constructor (assets: map<AssetId, AssetData>, balances: map<(AccountId, AssetId), nat>)
      ensures State() == Books(balances, map[], map[], map[], map[], assets, map[])
    {
      this.assets, this.balances := assets, balances;
      limits, shorts, calls, settlements, coreInOrders := map[], map[], map[], map[], map[];
    }

    method AdjustBalance(u: AccountId, a: AssetId, delta: int) returns (ok: bool)
      modifies `balances
      ensures ok == Ledger.AdjustBalance(old(State()), u, a, delta).Some?
      ensures ok ==> State() == Ledger.AdjustBalance(old(State()), u, a, delta).value
    {
      if delta == 0 { return true; }
      if (u, a) !in balances {
        if delta < 0 { return false; }
        balances := balances[(u, a) := delta];
      } else {
        if balances[(u, a)] < -delta { return false; }
        balances := balances[(u, a) := balances[(u, a)] + delta];
      }
      return true;
    }

    /** Changes an account's running total of core in orders. */
    method AddToCore(u: AccountId, delta: int)
      modifies `coreInOrders
      ensures State() == Ledger.AddToCore(old(State()), u, delta)
    {
      var total := if u in coreInOrders then coreInOrders[u] else 0;
      coreInOrders := coreInOrders[u := total + delta];
    }

    method AddSupply(a: AssetId, delta: int)
      requires a in assets
      modifies `assets
      ensures State() == Ledger.AddSupply(old(State()), a, delta)
    {
      assets := assets[a := assets[a].(supply := assets[a].supply + delta)];
    }

    method PayMarketFees(a: AssetId, receives: nat) returns (fee: nat)
      requires a in assets
      modifies `assets
      ensures (State(), fee) == PayFees(old(State()), a, receives)
    {
      fee := MarketFee(assets[a], receives);
      if fee > 0 {
        assets := assets[a := assets[a].(fees := assets[a].fees + fee)];
      }
    }

    method PayOrder(u: AccountId, recv: AssetId, net: int, paid: AssetId, pays: nat) returns (ok: bool)
      modifies `balances, `coreInOrders
      ensures ok == Fills.PayOrder(old(State()), u, recv, net, paid, pays).Some?
      ensures ok ==> State() == Fills.PayOrder(old(State()), u, recv, net, paid, pays).value
    {
      if paid == CORE { AddToCore(u, -(pays as int)); }
      ok := AdjustBalance(u, recv, net);
    }

    method CancelOrder(id: OrderId)
      requires id in limits
      modifies `balances, `coreInOrders, `limits
      ensures State() == CancelLimit(old(State()), id)
    {
      var order := limits[id];
      var (a, refunded) := (order.sellPrice.base.id, order.forSale);
      if a == CORE { AddToCore(order.seller, -(refunded as int)); }
      var paid := AdjustBalance(order.seller, a, refunded);
      limits := limits - {id};
    }

    method FillLimitOrder(id: OrderId, pays: nat, receives: nat) returns (ok: bool, gone: bool)
      requires id in limits && pays <= limits[id].forSale
      modifies `balances, `coreInOrders, `limits, `assets
      ensures ok == FillLimit(old(State()), id, pays, receives).Some?
      ensures ok ==> (State(), gone) == FillLimit(old(State()), id, pays, receives).value
    {
      hide Times, PayFees, CancelLimit, Fills.PayOrder;
      var order := limits[id];
      var (paid, recv) := (order.sellPrice.base.id, order.sellPrice.quote.id);
      if recv !in assets { return false, false; }
      var fee := PayMarketFees(recv, receives);
      ok := PayOrder(order.seller, recv, receives - fee, paid, pays);
      if !ok { return false, false; }
      if pays == order.forSale {
        limits := limits - {id};
        return true, true;
      }
      limits := limits[id := order.(forSale := order.forSale - pays)];
      var asked := Times(limits[id].forSale, paid, order.sellPrice);
      if asked.None? { return false, false; }
      if asked.value == 0 {
        CancelOrder(id);
        return true, true;
      }
      return true, false;
    }

    method ReduceCallOrder(k: CallKey, pays: nat, receives: nat)
      requires k in calls && receives <= calls[k].debt && calls[k].debtAsset in assets
      modifies `calls, `assets
      ensures State() == ReduceCall(old(State()), k, pays, receives)
    {
      var order := calls[k];
      if receives == order.debt {
        calls := calls - {k};
      } else {
        calls := calls[k := order.(debt := order.debt - receives, collateral := order.collateral - pays)];
      }
      AddSupply(order.debtAsset, -(receives as int));
    }

    method FreeCollateral(u: AccountId, a: AssetId, rest: int) returns (ok: bool)
      modifies `balances, `coreInOrders
      ensures ok == ReleaseCollateral(old(State()), u, a, rest).Some?
      ensures ok ==> State() == ReleaseCollateral(old(State()), u, a, rest).value
    {
      ok := AdjustBalance(u, a, rest);
      if ok && rest > 0 { AddToCore(u, -rest); }
    }

    method FillCallOrder(k: CallKey, pays: nat, receives: nat) returns (ok: bool, gone: bool)
      requires k in calls && receives <= calls[k].debt
      modifies `balances, `coreInOrders, `calls, `assets
      ensures ok == FillCall(old(State()), k, pays, receives).Some?
      ensures ok ==> (State(), gone) == FillCall(old(State()), k, pays, receives).value
    {
      hide ReduceCall, ReleaseCollateral;
      var order := calls[k];
      gone := receives == order.debt;
      if order.debtAsset !in assets { return false, gone; }
      ReduceCallOrder(k, pays, receives);
      if gone {
        ok := FreeCollateral(order.borrower, order.collateralAsset, order.collateral - pays);
        if !ok { return false, gone; }
      }
      if order.collateralAsset == CORE { AddToCore(order.borrower, -(pays as int)); }
      return true, gone;
    }

    /** Opens or grows the position that a filled short order goes into. */
    method GrowCallOrder(k: CallKey, collateralAsset: AssetId, debt: nat, collateral: int, ratio: Ratio) returns (ok: bool)
      modifies `calls
      ensures ok == GrowCall(old(State()), k, collateralAsset, debt, collateral, ratio).Some?
      ensures ok ==> State() == GrowCall(old(State()), k, collateralAsset, debt, collateral, ratio).value
    {
      hide CallPrice;
      var order := CallOrder(k.0, debt, k.1, collateral, collateralAsset, MaxPrice(collateralAsset, k.1), ratio);
      if k in calls {
        order := calls[k].(debt := calls[k].debt + debt, collateral := calls[k].collateral + collateral,
                           maintenanceRatio := ratio);
      }
      var price := CallPrice(order.debt, order.debtAsset, order.collateral, order.collateralAsset, ratio);
      if price.None? { return false; }
      calls := calls[k := order.(callPrice := price.value)];
      return true;
    }

    /** Returns the collateral of a short order that is taken off the book. */
    method RefundShort(order: ShortOrder) returns (ok: bool)
      modifies `balances, `coreInOrders
      ensures ok == ReturnCollateral(old(State()), order).Some?
      ensures ok ==> State() == ReturnCollateral(old(State()), order).value
    {
      ok := AdjustBalance(order.seller, order.sellPrice.quote.id, order.availableCollateral);
      if ok && order.sellPrice.quote.id == CORE { AddToCore(order.seller, -order.availableCollateral); }
    }

    method ReduceShortOrder(id: OrderId, pays: nat, collateral: int) returns (ok: bool, gone: bool)
      requires id in shorts && pays <= shorts[id].forSale
      modifies `balances, `coreInOrders, `shorts
      ensures ok == ReduceShort(old(State()), id, pays, collateral).Some?
      ensures ok ==> (State(), gone) == ReduceShort(old(State()), id, pays, collateral).value
    {
      hide Times, ReturnCollateral;
      var order := shorts[id];
      if pays == order.forSale {
        shorts := shorts - {id};
        return true, true;
      }
      order := order.(forSale := order.forSale - pays, availableCollateral := order.availableCollateral - collateral);
      shorts := shorts[id := order];
      var asked := Times(order.forSale, order.sellPrice.base.id, order.sellPrice);
      if asked.None? { return false, false; }
      if asked.value > 0 { return true, false; }
      ok := RefundShort(order);
      shorts := shorts - {id};
      return ok, true;
    }

    /** The fees, the running total and the supply of a filled short order; returns its net proceeds. */
    method TakeShortProceeds(id: OrderId, pays: nat, receives: nat) returns (net: int)
      requires id in shorts && {shorts[id].sellPrice.base.id, shorts[id].sellPrice.quote.id} <= assets.Keys
      modifies `coreInOrders, `assets
      ensures (State(), net) == ShortProceeds(old(State()), id, pays, receives)
    {
      hide PayFees, Ledger.AddSupply, Ledger.AddToCore;
      var order := shorts[id];
      var (sold, recv) := (order.sellPrice.base.id, order.sellPrice.quote.id);
      var fee := PayMarketFees(recv, receives);
      net := receives - fee;
      if recv == CORE { AddToCore(order.seller, net); }
      AddSupply(sold, pays);
    }

    method FillShortOrder(id: OrderId, pays: nat, receives: nat) returns (ok: bool, gone: bool)
      requires id in shorts && pays <= shorts[id].forSale
      modifies `balances, `coreInOrders, `shorts, `calls, `assets
      ensures ok == FillShort(old(State()), id, pays, receives).Some?
      ensures ok ==> (State(), gone) == FillShort(old(State()), id, pays, receives).value
    {
      hide ShortCollateral, ShortProceeds, GrowCall, ReduceShort;
      var order := shorts[id];
      var (sold, recv) := (order.sellPrice.base.id, order.sellPrice.quote.id);
      if sold !in assets || recv !in assets { return false, false; }
      var share := ShortCollateral(order, pays);
      if share.None? { return false, false; }
      var net := TakeShortProceeds(id, pays, receives);
      ok := GrowCallOrder((order.seller, sold), recv, pays, share.value + net, order.maintenanceRatio);
      if !ok { return false, false; }
      ok, gone := ReduceShortOrder(id, pays, share.value);
    }

    method FillSettlementOrder(id: OrderId, pays: nat, recv: AssetId, receives: nat) returns (ok: bool, gone: bool)
      requires id in settlements
      modifies `balances, `settlements, `assets
      ensures ok == FillSettlement(old(State()), id, pays, recv, receives).Some?
      ensures ok ==> (State(), gone) == FillSettlement(old(State()), id, pays, recv, receives).value
    {
      hide PayFees;
      var order := settlements[id];
      if recv !in assets { return false, false; }
      var fee := PayMarketFees(recv, receives);
      if pays < order.balance {
        settlements := settlements[id := order.(balance := order.balance - pays)];
        gone := false;
      } else {
        settlements := settlements - {id};
        gone := true;
      }
      ok := AdjustBalance(order.owner, recv, receives - fee);
    }

    // ----- matching -----

    method MatchLimitOrders(bid: OrderId, ask: OrderId, p: MarketPrice) returns (ok: bool, result: int)
      requires CanMatchLimits(State(), bid, ask, p)
      modifies `balances, `coreInOrders, `limits, `assets
      ensures ok == MatchLimits(old(State()), bid, ask, p).Some?
      ensures ok ==> (State(), result) == MatchLimits(old(State()), bid, ask, p).value
    {
      hide MatchAmounts, FillLimit;
      result := 0;
      var amounts := LimitAmounts(State(), bid, ask, p);
      if amounts.None? { return false, 0; }
      var (bidPays, askPays) := amounts.value;
      FillLimitFrames(State(), bid, bidPays, askPays);
      var bidGone, askGone;
      ok, bidGone := FillLimitOrder(bid, bidPays, askPays);
      if !ok { return; }
      if bidGone { result := result + 1; }
      ok, askGone := FillLimitOrder(ask, askPays, bidPays);
      if askGone { result := result + 2; }
    }

    method MatchShortOrder(bid: OrderId, ask: OrderId, p: MarketPrice) returns (ok: bool, result: int)
      requires CanMatchShort(State(), bid, ask, p)
      modifies `balances, `coreInOrders, `limits, `shorts, `calls, `assets
      ensures ok == MatchShort(old(State()), bid, ask, p).Some?
      ensures ok ==> (State(), result) == MatchShort(old(State()), bid, ask, p).value
    {
      hide MatchAmounts, FillLimit, FillShort;
      result := 0;
      var amounts := ShortAmounts(State(), bid, ask, p);
      if amounts.None? { return false, 0; }
      var (bidPays, askPays) := amounts.value;
      FillLimitFrames(State(), bid, bidPays, askPays);
      var bidGone, askGone;
      ok, bidGone := FillLimitOrder(bid, bidPays, askPays);
      if !ok { return; }
      if bidGone { result := result + 1; }
      ok, askGone := FillShortOrder(ask, askPays, bidPays);
      if askGone { result := result + 2; }
    }

    method MatchSettlementOrder(k: CallKey, id: OrderId, p: SettlementPrice, max: nat) returns (ok: bool, settled: nat)
      requires k in calls && id in settlements && settlements[id].asset == calls[k].debtAsset
      modifies `balances, `coreInOrders, `calls, `settlements, `assets
      ensures ok == MatchSettlement(old(State()), k, id, p, max).Some?
      ensures ok ==> (State(), settled) == MatchSettlement(old(State()), k, id, p, max).value
    {
      hide FillCall, FillSettlement, SettledFor;
      settled := SettledAmount(State(), k, id, max);
      var collateral := calls[k].collateralAsset;
      var pays := SettledFor(settled, p);
      if pays.None? { return false, settled; }
      if FillCall(State(), k, pays.value, settled).Some? { FillCallFrame(State(), k, pays.value, settled); }
      var gone;
      ok, gone := FillCallOrder(k, pays.value, settled);
      if !ok { return; }
      ok, gone := FillSettlementOrder(id, settled, collateral, pays.value);
    }

    /** One turn of the margin-call loop. */
    method MarginCall(k: CallKey, order: OrderId, isLimit: bool) returns (ok: bool)
      requires CanCall(State(), k, order, isLimit)
      modifies this
      ensures ok == MarginCalled(old(State()), k, order, isLimit).Some?
      ensures ok ==> State() == MarginCalled(old(State()), k, order, isLimit).value
    {
      hide Times, FillCall, FillLimit, FillShort, AtMost;
      var o, price, size := calls[k], OfferPrice(State(), order, isLimit), OfferSize(State(), order, isLimit);
      if !AtMost(price, o.callPrice.Inverse()) { return false; }
      var whole := Times(o.debt, o.debtAsset, price);
      if whole.None? || whole.value > o.collateral { return false; }
      var amount := if o.debt >= size then size else o.debt;
      assert amount == Min(o.debt, size);
      var pays := Times(amount, o.debtAsset, price);
      if pays.None? { return false; }
      if FillCall(State(), k, pays.value, amount).Some? { FillCallFrame(State(), k, pays.value, amount); }
      var gone;
      ok, gone := FillCallOrder(k, pays.value, amount);
      if !ok { return; }
      if isLimit {
        ok, gone := FillLimitOrder(order, amount, pays.value);
      } else {
        ok, gone := FillShortOrder(order, amount, pays.value);
      }
    }

    // ----- operations -----

    /** Takes what is offered from the balance, and adds it to the running total. */
    method TakeOffer(u: AccountId, a: AssetId, amount: nat) returns (ok: bool)
      modifies `balances, `coreInOrders
      ensures ok == Offer(old(State()), u, a, amount).Some?
      ensures ok ==> State() == Offer(old(State()), u, a, amount).value
    {
      ok := AdjustBalance(u, a, -(amount as int));
      if ok && a == CORE { AddToCore(u, amount); }
    }

    method PlaceLimitOrder(id: OrderId, o: LimitOrder) returns (ok: bool)
      modifies `balances, `coreInOrders, `limits
      ensures ok == PlacedLimit(old(State()), id, o).Some?
      ensures ok ==> State() == PlacedLimit(old(State()), id, o).value
    {
      hide Offer;
      if id in limits || o.forSale != o.sellPrice.base.amount { return false; }
      ok := TakeOffer(o.seller, o.sellPrice.base.id, o.forSale);
      if ok { limits := limits[id := o]; }
    }

    /** A new order between plain assets goes through the opposite orders, best first. */
    method CreateLimitOrder(id: OrderId, o: LimitOrder, keep: bool) returns (ok: bool)
      modifies this
      ensures ok == Create(old(State()), id, o, keep).Some?
      ensures ok ==> State() == Create(old(State()), id, o, keep).value
    {
      hide PlacedLimit, MatchLimits, CanMatchLimits, InRange, IsFirst;
      if !IsPlain(State(), o.sellPrice.base.id) || !IsPlain(State(), o.sellPrice.quote.id) { return false; }
      ok := PlaceLimitOrder(id, o);
      if !ok { return; }
      ghost var placed := State();
      PlacedLimitFrame(old(State()), id, o);
      var filled := false;
      while !filled && Candidates(limits, id) != {}
        invariant !filled ==> id in limits && Consume(placed, id) == Consume(State(), id)
        invariant filled ==> Consume(placed, id) == Some(State())
        decreases !filled, |limits|
      {
        FirstIsCandidate(limits, Candidates(limits, id), First(limits, Candidates(limits, id)));
        var ask :| ask in Candidates(limits, id) && IsFirst(limits, Candidates(limits, id), ask);
        FirstIsUnique(limits, Candidates(limits, id), ask, First(limits, Candidates(limits, id)));
        CandidateMatches(State(), id, ask);
        if MatchLimits(State(), id, ask, limits[ask].sellPrice).Some? {
          MatchShrinks(State(), id, ask, limits[ask].sellPrice);
        }
        var result;
        ok, result := MatchLimitOrders(id, ask, limits[ask].sellPrice);
        if !ok { return; }
        filled := result != 2;
      }
      ok := keep || id !in limits;
    }

    method CreateShortOrder(id: OrderId, o: ShortOrder) returns (ok: bool)
      modifies `balances, `coreInOrders, `shorts
      ensures ok == PlacedShort(old(State()), id, o).Some?
      ensures ok ==> State() == PlacedShort(old(State()), id, o).value
    {
      hide Offer;
      if id in shorts || o.availableCollateral < 0
         || Backing(State(), o.sellPrice.base.id) != Some(o.sellPrice.quote.id) { return false; }
      ok := TakeOffer(o.seller, o.sellPrice.quote.id, o.availableCollateral);
      if ok { shorts := shorts[id := o]; }
    }

    method CancelShortOrder(id: OrderId) returns (ok: bool)
      requires id in shorts
      modifies `balances, `coreInOrders, `shorts
      ensures ok == CancelledShort(old(State()), id).Some?
      ensures ok ==> State() == CancelledShort(old(State()), id).value
    {
      hide ReturnCollateral;
      ok := RefundShort(shorts[id]);
      shorts := shorts - {id};
    }

    method RequestSettlement(id: OrderId, r: Settlement) returns (ok: bool)
      modifies `balances, `settlements
      ensures ok == SettlementRequested(old(State()), id, r).Some?
      ensures ok ==> State() == SettlementRequested(old(State()), id, r).value
    {
      if id in settlements { return false; }
      ok := AdjustBalance(r.owner, r.asset, -(r.balance as int));
      if ok { settlements := settlements[id := r]; }
    }

    method PayDebt(u: AccountId, a: AssetId, amount: nat) returns (ok: bool)
      requires a in assets
      modifies `balances, `assets
      ensures ok == PaidDebt(old(State()), u, a, amount).Some?
      ensures ok ==> State() == PaidDebt(old(State()), u, a, amount).value
    {
      ok := AdjustBalance(u, a, -(amount as int));
      if ok { AddSupply(a, -(amount as int)); }
    }

    /** Only added collateral is taken from the balance; the running total moves either way. */
    method CoverPosition(k: CallKey, debt: nat, addCollateral: int, ratio: Option<Ratio>) returns (ok: bool)
      requires k in calls && calls[k].debtAsset in assets && debt < calls[k].debt
      modifies `balances, `coreInOrders, `calls, `assets
      ensures ok == Covered(old(State()), k, debt, addCollateral, ratio).Some?
      ensures ok ==> State() == Covered(old(State()), k, debt, addCollateral, ratio).value
    {
      hide CallPrice, PaidDebt;
      var o := calls[k];
      ok := PayDebt(o.borrower, o.debtAsset, debt);
      if !ok { return; }
      var o' := o.(debt := o.debt - debt, collateral := o.collateral + addCollateral);
      if ratio.Some? { o' := o'.(maintenanceRatio := ratio.value); }
      var price := CallPrice(o'.debt, o'.debtAsset, o'.collateral, o'.collateralAsset, o'.maintenanceRatio);
      if price.None? { return false; }
      calls := calls[k := o'.(callPrice := price.value)];
      if addCollateral > 0 {
        ok := AdjustBalance(o.borrower, o.collateralAsset, -addCollateral);
        if !ok { return; }
      }
      if o.collateralAsset == CORE { AddToCore(o.borrower, addCollateral); }
    }

    method ClosePosition(k: CallKey) returns (ok: bool)
      requires k in calls && calls[k].debtAsset in assets
      modifies `balances, `coreInOrders, `calls, `assets
      ensures ok == Closed(old(State()), k).Some?
      ensures ok ==> State() == Closed(old(State()), k).value
    {
      hide PaidDebt;
      var o := calls[k];
      if o.collateral < 0 { return false; }
      ok := PayDebt(o.borrower, o.debtAsset, o.debt);
      if !ok { return; }
      if o.collateralAsset == CORE { AddToCore(o.borrower, -o.collateral); }
      ok := AdjustBalance(o.borrower, o.collateralAsset, o.collateral);
      calls := calls - {k};
    }

    // ----- clearing settlements -----

    /** Matches one settlement with the least collateralized positions until it or the volume is used up. */
    method SettleOrder(id: OrderId, p: SettlementPrice, start: nat, max: int) returns (ok: bool, settled: nat)
      requires Valid(State()) && Positive(State()) && Priced(State(), id, p)
      modifies this
      ensures ok == Settling.SettleOrder(old(State()), id, p, start, max).Done?
      ensures ok ==> (State(), settled) == Settling.SettleOrder(old(State()), id, p, start, max).value
    {
      hide Valid, Positive, Priced, IsWeakest, MatchSettlement;
      settled := start;
      while settled < max && id in settlements
        invariant Valid(State()) && Positive(State()) && Priced(State(), id, p)
        invariant Settling.SettleOrder(old(State()), id, p, start, max) == Settling.SettleOrder(State(), id, p, settled, max)
        decreases max - settled
      {
        var a := settlements[id].asset;
        if CallsInRange(State(), a) == {} {
          NoneWeakest(State(), a);
          return false, settled;
        }
        WeakestExists(State(), a);
        WeakestIsInRange(State(), a, Weakest(State(), a).value);
        var k :| k in CallsInRange(State(), a) && IsWeakest(State(), CallsInRange(State(), a), k);
        WeakestIsUnique(State(), a, k, Weakest(State(), a).value);
        if MatchSettlement(State(), k, id, p, max - settled).Some? {
          SettleValid(State(), k, id, p, max - settled);
          MatchKeepsPositive(State(), k, id, p, max - settled);
        }
        var amount;
        ok, amount := MatchSettlementOrder(k, id, p, max - settled);
        if !ok { return; }
        settled := settled + amount;
      }
      ok := true;
    }

    /** `clear_expired_orders`, as far as settlements go. */
    method ClearSettlements() returns (ok: bool)
      requires Valid(State()) && Positive(State()) && !IsBit(State(), CORE)
      modifies this
      ensures ok == Settling.ClearSettlements(old(State())).Done?
      ensures ok ==> State() == Settling.ClearSettlements(old(State())).value
    {
      hide Valid, Positive, Remembered, IsNext, Exhausted, CapOf, Cap, PriceOf, Settling.SettleOrder, Progressed;
      var from, known := 0, (CORE, 0);
      StartsRemembered(State());
      while Pending(State(), from) != {}
        invariant Valid(State()) && Positive(State()) && Remembered(State(), known)
        invariant ClearFrom(old(State()), 0, (CORE, 0)) == ClearFrom(State(), from, known)
        decreases |Pending(State(), from)|, Open(State(), from, known)
      {
        var id := FindNext(from);
        NextIsPending(State(), from, id);
        var a := settlements[id].asset;
        if !IsBit(State(), a) { return false; }
        var max := CapOf(State(), a, known);
        RememberedIsRecomputed(State(), a, known);
        if Exhausted(State(), a, max) {
          if Pending(State(), a + 1) == {} { return true; }
          var after := FindNext(a + 1);
          NextIsPending(State(), a + 1, after);
          SkipProgresses(State(), from, id, after);
          from := settlements[after].asset;
        } else {
          ghost var s := State();
          if SettleFirst(s, id, max).Done? {
            SettleFirstKeeps(s, id, max);
            SettleFirstProgresses(s, from, id, SettleFirst(s, id, max).value, max);
            RememberedKept(s, SettleFirst(s, id, max).value, (a, max));
          }
          ok := SettleNext(id, max);
          if !ok { return; }
          from := a;
        }
        known := (a, max);
      }
      ok := true;
    }

    method FindNext(from: AssetId) returns (id: OrderId)
      requires Pending(State(), from) != {}
      ensures IsNext(State(), from, id) && Next(State(), from) == Some(id)
    {
      hide Earlier;
      NextExists(State(), from);
      assert forall i :: IsNext(State(), from, i) ==> i in Pending(State(), from);
      id :| id in Pending(State(), from) && IsNext(State(), from, id);
      NextIsUnique(State(), from, id, Next(State(), from).value);
    }

    /** One settlement at its price; the volume settled is written back at the end. */
    method SettleNext(id: OrderId, max: int) returns (ok: bool)
      requires Valid(State()) && Positive(State())
      requires id in settlements && IsBit(State(), settlements[id].asset)
      modifies this
      ensures ok == SettleFirst(old(State()), id, max).Done?
      ensures ok ==> State() == SettleFirst(old(State()), id, max).value
    {
      hide Valid, Positive, PriceOf, Settling.SettleOrder;
      var a := settlements[id].asset;
      var price := PriceOf(State(), id);
      if price.None? { return false; }
      PricedAtFeed(State(), id);
      var settled;
      ok, settled := SettleOrder(id, price.value, Settled(State(), a), max);
      if !ok { return; }
      assets := assets[a := assets[a].(bit := Some(assets[a].bit.value.(forceSettled := settled)))];
    }
  }

  lemma FillLimitFrames(s: Books, id: OrderId, pays: nat, receives: nat)
    requires id in s.limits && pays <= s.limits[id].forSale
    ensures FillLimit(s, id, pays, receives).Some? ==>
              var s' := FillLimit(s, id, pays, receives).value.0;
              s'.shorts == s.shorts && forall i <- s.limits :: i != id ==> i in s'.limits && s'.limits[i] == s.limits[i]
  {
    hide FillLimit;
    if FillLimit(s, id, pays, receives).Some? { FillLimitFrame(s, id, pays, receives); }
  }

  lemma StartsRemembered(s: Books)
    requires !IsBit(s, CORE)
    ensures Remembered(s, (CORE, 0))
  {
  }
}

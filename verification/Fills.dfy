/**
 Filling orders. Each of the four `fill_order` overloads moves exactly what the order pays
 out of its side of the books and what it receives into it, net of supply; debt moves with
 supply, and so does the running total of core in orders with the orders themselves.
 `None` stands for an exception, after which the caller undoes everything.
 */
module Fills {
  import opened Wrappers
  import opened Assets
  import opened Sums
  import opened Ledger

  // ----- fees -----

  function MarketFee(d: AssetData, amount: nat): nat {
    if !d.chargesFees then 0
    else if d.feePercent == 0 then d.minFee
    else
      var percentFee := amount * d.feePercent / HUNDRED_PERCENT;
      if percentFee > d.maxFee then d.maxFee
      else if percentFee < d.minFee then d.minFee
      else percentFee
  }

  /** The fee is nothing when none is charged, else the percentage, rounded down and moved into the issuer's bounds. */
  lemma MarketFeeBounds(d: AssetData, amount: nat)
    ensures !d.chargesFees ==> MarketFee(d, amount) == 0
    ensures d.chargesFees && d.feePercent == 0 ==> MarketFee(d, amount) == d.minFee
    ensures d.chargesFees && d.feePercent > 0 && d.minFee <= d.maxFee ==>
              var fee := MarketFee(d, amount);
              && d.minFee <= fee <= d.maxFee
              && (fee > d.minFee ==> fee * HUNDRED_PERCENT <= amount * d.feePercent)
              && (fee < d.maxFee ==> amount * d.feePercent < (fee + 1) * HUNDRED_PERCENT)
    ensures d.feePercent <= HUNDRED_PERCENT && d.minFee <= amount && d.minFee <= d.maxFee ==>
              MarketFee(d, amount) <= amount
  {
  }

  /** The fee on an amount received. */
  function FeeOf(s: Books, a: AssetId, amount: nat): nat {
    if a in s.assets then MarketFee(s.assets[a], amount) else 0
  }

  lemma FeesStay(s: Books, s': Books, a: AssetId, amount: nat)
    requires SameAssets(s, s')
    ensures FeeOf(s', a, amount) == FeeOf(s, a, amount)
  {
    if a in s.assets { assert s'.assets[a] == s.assets[a].(supply := s'.assets[a].supply, fees := s'.assets[a].fees); }
  }

  /** What an account's receipt adds to a measure: the fee goes to the asset. */
  function Receipt(m: Measure, u: AccountId, a: AssetId, receives: int, fee: int): int {
    Gain(m, u, a, receives - fee) + OnlyIf(m == NetHoldings(a), fee)
  }

  /** What covering a debt adds to a measure, apart from what is paid for it: the supply falls with the debt. */
  function Covering(m: Measure, u: AccountId, a: AssetId, n: int): int {
    OnlyIf(m == NetHoldings(a), n) - OnlyIf(m == Owes(u, a), n)
  }

  /** Fees stay with the received asset; the books after and the fee. */
  function PayFees(s: Books, a: AssetId, receives: nat): (r: (Books, nat))
    requires a in s.assets
    ensures r.0 == s.(assets := r.0.assets) && SameAssets(s, r.0) && r.1 == FeeOf(s, a, receives)
  {
    var fee := MarketFee(s.assets[a], receives);
    (if fee > 0 then AddFees(s, a, fee) else s, fee)
  }

  lemma FeesPaid(m: Measure, s: Books, a: AssetId, receives: nat)
    requires a in s.assets
    ensures var (s', fee) := PayFees(s, a, receives);
            Total(m, s') == Total(m, s) + OnlyIf(m == NetHoldings(a), fee)
  {
    if MarketFee(s.assets[a], receives) > 0 {
      FeesMove(m, s, a, MarketFee(s.assets[a], receives));
    }
  }

  // ----- limit orders -----

  /** Core in an order goes off the running total and back to the balance; this cannot fail. */
  function Refund(s: Books, u: AccountId, a: AssetId, amount: nat): (r: Books)
    ensures r == s.(balances := r.balances, coreInOrders := r.coreInOrders)
  {
    AdjustBalance(AddCore(s, u, a, -(amount as int)), u, a, amount).value
  }

  lemma Refunded(m: Measure, s: Books, u: AccountId, a: AssetId, amount: nat)
    ensures Total(m, Refund(s, u, a, amount)) ==
            Total(m, s) + Gain(m, u, a, amount) + InOrder(m, u, a, amount)
  {
    hide Total;
    CoreMoves(m, s, u, a, -(amount as int));
    BalanceMoves(m, AddCore(s, u, a, -(amount as int)), u, a, amount);
  }

  function CancelLimit(s: Books, id: OrderId): Books
    requires id in s.limits
  {
    var o := s.limits[id];
    DropLimit(Refund(s, o.seller, o.sellPrice.base.id, o.forSale), id)
  }

  lemma CancelLimitConserves(m: Measure, s: Books, id: OrderId)
    requires id in s.limits
    ensures Total(m, CancelLimit(s, id)) == Total(m, s)
  {
    hide Total, Refund;
    var o := s.limits[id];
    Refunded(m, s, o.seller, o.sellPrice.base.id, o.forSale);
    LimitMoves(m, Refund(s, o.seller, o.sellPrice.base.id, o.forSale), id, o);
  }

  /** `pay_order`: the seller is credited, and what was paid leaves the running total. */
  function PayOrder(s: Books, u: AccountId, recv: AssetId, net: int, paid: AssetId, pays: nat): Option<Books> {
    AdjustBalance(AddCore(s, u, paid, -(pays as int)), u, recv, net)
  }

  lemma OrderPaid(m: Measure, s: Books, u: AccountId, recv: AssetId, net: int, paid: AssetId, pays: nat)
    requires PayOrder(s, u, recv, net, paid, pays).Some?
    ensures Total(m, PayOrder(s, u, recv, net, paid, pays).value) ==
            Total(m, s) + Gain(m, u, recv, net) + InOrder(m, u, paid, pays)
  {
    hide Total, AddCore, AdjustBalance;
    CoreMoves(m, s, u, paid, -(pays as int));
    BalanceMoves(m, AddCore(s, u, paid, -(pays as int)), u, recv, net);
  }

  /** The order shrinks, and is removed when it is used up or too small to ask for anything. */
  function ReduceLimit(s: Books, id: OrderId, pays: nat): Option<(Books, bool)>
    requires id in s.limits && pays <= s.limits[id].forSale
  {
    var o := s.limits[id];
    if pays == o.forSale then Some((DropLimit(s, id), true))
    else
      var o' := o.(forSale := o.forSale - pays);
      var s' := PutLimit(s, id, o');
      match Times(o'.forSale, o'.sellPrice.base.id, o'.sellPrice)
      case None => None
      case Some(asked) =>
        if asked > 0 then Some((s', false))
        else Some((CancelLimit(s', id), true))
  }

  lemma LimitReduced(m: Measure, s: Books, id: OrderId, pays: nat)
    requires id in s.limits && pays <= s.limits[id].forSale && ReduceLimit(s, id, pays).Some?
    ensures Total(m, ReduceLimit(s, id, pays).value.0) == Total(m, s) - LimitWeight(m, s.limits[id].(forSale := pays))
  {
    hide Total, CancelLimit, Times;
    var o := s.limits[id];
    var o' := o.(forSale := o.forSale - pays);
    LimitMoves(m, s, id, o');
    if pays != o.forSale {
      CancelLimitConserves(m, PutLimit(s, id, o'), id);
    }
  }

  /** What is left of an order is worth less than one unit of what it asks for. */
  predicate AsksNothing(o: LimitOrder) {
    o.forSale * o.sellPrice.quote.amount < o.sellPrice.base.amount
  }

  lemma RestAsksNothing(n: nat, p: MarketPrice)
    requires Times(n, p.base.id, p).Some?
    ensures Times(n, p.base.id, p) == Some(0) <==> n * p.quote.amount < p.base.amount
    ensures n == 0 ==> n * p.quote.amount < p.base.amount
  {
    TimesRoundsDown(n, p.base.id, p);
    if Times(n, p.base.id, p).value > 0 { ProductGrows(1, Times(n, p.base.id, p).value, p.base.amount); }
  }

  /** Nothing but the order, its seller's balance and its seller's running total is touched. */
  ghost predicate OnlyLimits(s: Books, s': Books) {
    s' == s.(balances := s'.balances, coreInOrders := s'.coreInOrders, limits := s'.limits)
  }

  lemma CancelLimitFrame(s: Books, id: OrderId)
    requires id in s.limits
    ensures OnlyLimits(s, CancelLimit(s, id))
    ensures CancelLimit(s, id).limits == s.limits - {id}
  {
  }

  lemma LimitReducedFrame(s: Books, id: OrderId, pays: nat)
    requires id in s.limits && pays <= s.limits[id].forSale && ReduceLimit(s, id, pays).Some?
    ensures var o, (s', gone) := s.limits[id], ReduceLimit(s, id, pays).value;
            && OnlyLimits(s, s')
            && s'.limits == (if gone then s.limits - {id} else s.limits[id := o.(forSale := o.forSale - pays)])
            && (gone <==> AsksNothing(o.(forSale := o.forSale - pays)))
  {
    hide Times, CancelLimit;
    var o := s.limits[id];
    if pays != o.forSale {
      RestAsksNothing(o.forSale - pays, o.sellPrice);
      var o' := o.(forSale := o.forSale - pays);
      CancelLimitFrame(PutLimit(s, id, o'), id);
      PutThenDrop(s.limits, id, o');
    }
  }

  /** The books between paying the order and reducing it. */
  function LimitPaid(s: Books, id: OrderId, pays: nat, receives: nat): Option<Books>
    requires id in s.limits && s.limits[id].sellPrice.quote.id in s.assets
  {
    var o := s.limits[id];
    var (s1, fee) := PayFees(s, o.sellPrice.quote.id, receives);
    PayOrder(s1, o.seller, o.sellPrice.quote.id, receives - fee, o.sellPrice.base.id, pays)
  }

  function FillLimit(s: Books, id: OrderId, pays: nat, receives: nat): Option<(Books, bool)>
    requires id in s.limits && pays <= s.limits[id].forSale
  {
    if s.limits[id].sellPrice.quote.id !in s.assets then None
    else if LimitPaid(s, id, pays, receives).None? then None
    else ReduceLimit(LimitPaid(s, id, pays, receives).value, id, pays)
  }

  lemma LimitPaidFrame(s: Books, id: OrderId, pays: nat, receives: nat)
    requires id in s.limits && s.limits[id].sellPrice.quote.id in s.assets && LimitPaid(s, id, pays, receives).Some?
    ensures var s' := LimitPaid(s, id, pays, receives).value;
            && s' == s.(balances := s'.balances, coreInOrders := s'.coreInOrders, assets := s'.assets)
            && SameAssets(s, s')
  {
  }

  lemma LimitPaidMoves(m: Measure, s: Books, id: OrderId, pays: nat, receives: nat)
    requires id in s.limits && s.limits[id].sellPrice.quote.id in s.assets && LimitPaid(s, id, pays, receives).Some?
    ensures var o := s.limits[id];
            Total(m, LimitPaid(s, id, pays, receives).value) ==
            Total(m, s) + Receipt(m, o.seller, o.sellPrice.quote.id, receives, FeeOf(s, o.sellPrice.quote.id, receives))
                        + InOrder(m, o.seller, o.sellPrice.base.id, pays)
  {
    hide Total, PayFees, PayOrder;
    var o := s.limits[id];
    var (s1, fee) := PayFees(s, o.sellPrice.quote.id, receives);
    FeesPaid(m, s, o.sellPrice.quote.id, receives);
    OrderPaid(m, s1, o.seller, o.sellPrice.quote.id, receives - fee, o.sellPrice.base.id, pays);
  }

  lemma FillLimitMoves(m: Measure, s: Books, id: OrderId, pays: nat, receives: nat)
    requires id in s.limits && pays <= s.limits[id].forSale && FillLimit(s, id, pays, receives).Some?
    ensures var o := s.limits[id];
            Total(m, FillLimit(s, id, pays, receives).value.0) ==
            Total(m, s) - Gain(m, o.seller, o.sellPrice.base.id, pays)
                        + Receipt(m, o.seller, o.sellPrice.quote.id, receives, FeeOf(s, o.sellPrice.quote.id, receives))
  {
    hide Total, LimitPaid, ReduceLimit;
    LimitPaidFrame(s, id, pays, receives);
    LimitPaidMoves(m, s, id, pays, receives);
    LimitReduced(m, LimitPaid(s, id, pays, receives).value, id, pays);
  }

  lemma FillLimitFrame(s: Books, id: OrderId, pays: nat, receives: nat)
    requires id in s.limits && pays <= s.limits[id].forSale && FillLimit(s, id, pays, receives).Some?
    ensures var o, (s', gone) := s.limits[id], FillLimit(s, id, pays, receives).value;
            && s' == s.(balances := s'.balances, coreInOrders := s'.coreInOrders, assets := s'.assets, limits := s'.limits)
            && SameAssets(s, s')
            && s'.limits == (if gone then s.limits - {id} else s.limits[id := o.(forSale := o.forSale - pays)])
            && (gone <==> AsksNothing(o.(forSale := o.forSale - pays)))
  {
    hide LimitPaid, ReduceLimit;
    LimitPaidFrame(s, id, pays, receives);
    LimitReducedFrame(LimitPaid(s, id, pays, receives).value, id, pays);
  }

  lemma FeesLeaveBalances(s: Books, a: AssetId, receives: nat, v: AccountId, b: AssetId)
    requires a in s.assets
    ensures BalanceOf(PayFees(s, a, receives).0, v, b) == BalanceOf(s, v, b)
  {
  }

  lemma LimitPaidSucceeds(s: Books, id: OrderId, pays: nat, receives: nat)
    requires id in s.limits && s.limits[id].sellPrice.quote.id in s.assets
    ensures var o := s.limits[id];
            var a := o.sellPrice.quote.id;
            LimitPaid(s, id, pays, receives).Some? <==> FeeOf(s, a, receives) <= receives + BalanceOf(s, o.seller, a)
  {
    hide PayFees, FeeOf, AdjustBalance;
    var o := s.limits[id];
    var (s1, fee) := PayFees(s, o.sellPrice.quote.id, receives);
    FeesLeaveBalances(s, o.sellPrice.quote.id, receives, o.seller, o.sellPrice.quote.id);
    BalanceAdjusted(AddCore(s1, o.seller, o.sellPrice.base.id, -(pays as int)), o.seller, o.sellPrice.quote.id, receives - fee);
  }

  /** A fill goes through unless the fee overdraws the balance, or what is left asks for more than the largest supply. */
  lemma FillLimitSucceeds(s: Books, id: OrderId, pays: nat, receives: nat)
    requires id in s.limits && pays <= s.limits[id].forSale
    ensures var o := s.limits[id];
            var (x, y, a) := (o.sellPrice.quote.amount, o.sellPrice.base.amount, o.sellPrice.quote.id);
            FillLimit(s, id, pays, receives).Some? <==>
              && a in s.assets && FeeOf(s, a, receives) <= receives + BalanceOf(s, o.seller, a)
              && (pays == o.forSale || (o.forSale - pays) * x < (MAX_SHARE_SUPPLY + 1) * y)
  {
    hide LimitPaid, Times, CancelLimit, FeeOf;
    var o := s.limits[id];
    TimesSucceeds(o.forSale - pays, o.sellPrice.base.id, o.sellPrice);
    if o.sellPrice.quote.id in s.assets {
      LimitPaidSucceeds(s, id, pays, receives);
      if LimitPaid(s, id, pays, receives).Some? { LimitPaidFrame(s, id, pays, receives); }
    }
  }

  // ----- call orders -----

  type CallKey = (AccountId, AssetId)

  /** Debt and collateral shrink, the covered debt leaves the supply, and a debt of zero ends the position. */
  function ReduceCall(s: Books, k: CallKey, pays: nat, receives: nat): Books
    requires k in s.calls && receives <= s.calls[k].debt && s.calls[k].debtAsset in s.assets
  {
    var o := s.calls[k];
    var o' := o.(debt := o.debt - receives, collateral := o.collateral - pays);
    AddSupply(if o'.debt == 0 then DropCall(s, k) else PutCall(s, k, o'), o.debtAsset, -(receives as int))
  }

  lemma CallWeightSplits(m: Measure, o: CallOrder, pays: nat, receives: nat)
    requires receives <= o.debt
    ensures CallWeight(m, o) == CallWeight(m, o.(debt := o.debt - receives, collateral := o.collateral - pays))
                                + CallWeight(m, o.(debt := receives, collateral := pays))
  {
  }

  lemma CallReduced(m: Measure, s: Books, k: CallKey, pays: nat, receives: nat)
    requires k in s.calls && receives <= s.calls[k].debt && s.calls[k].debtAsset in s.assets
    ensures var o := s.calls[k];
            var out := if receives == o.debt then o.collateral else pays;
            Total(m, ReduceCall(s, k, pays, receives)) ==
            Total(m, s) - CallWeight(m, o.(debt := receives, collateral := out))
                        + OnlyIf(m == NetHoldings(o.debtAsset) || m == NetDebt(o.debtAsset), receives)
  {
    hide Total, CallWeight;
    var o := s.calls[k];
    var o' := o.(debt := o.debt - receives, collateral := o.collateral - pays);
    CallWeightSplits(m, o, pays, receives);
    CallMoves(m, s, k, o');
    SupplyMoves(m, if o'.debt == 0 then DropCall(s, k) else PutCall(s, k, o'), o.debtAsset, -(receives as int));
  }

  /** What a closed position gets back; a positive rest leaves the running total whatever asset it is in. */
  function ReleaseCollateral(s: Books, u: AccountId, a: AssetId, rest: int): Option<Books> {
    match AdjustBalance(s, u, a, rest)
    case None => None
    case Some(s') => Some(if rest > 0 then AddToCore(s', u, -rest) else s')
  }

  lemma CollateralReleased(m: Measure, s: Books, u: AccountId, a: AssetId, rest: int)
    requires ReleaseCollateral(s, u, a, rest).Some?
    ensures Total(m, ReleaseCollateral(s, u, a, rest).value) ==
            Total(m, s) + Gain(m, u, a, rest) + OnlyIf(m == CoreGap(u) && rest > 0, rest)
  {
    hide Total, AdjustBalance;
    BalanceMoves(m, s, u, a, rest);
    CoreTotalMoves(m, AdjustBalance(s, u, a, rest).value, u, -rest);
  }

  function FillCall(s: Books, k: CallKey, pays: nat, receives: nat): Option<(Books, bool)>
    requires k in s.calls && receives <= s.calls[k].debt
  {
    var o := s.calls[k];
    if o.debtAsset !in s.assets then None
    else
      var s1 := ReduceCall(s, k, pays, receives);
      var s2 := if receives == o.debt
                then ReleaseCollateral(s1, o.borrower, o.collateralAsset, o.collateral - pays) else Some(s1);
      if s2.None? then None
      else Some((AddCore(s2.value, o.borrower, o.collateralAsset, -(pays as int)), receives == o.debt))
  }

  /** By how much a fill makes the running total of the borrower disagree with what is in orders. */
  function CallDrift(o: CallOrder, pays: nat, receives: nat): int {
    var rest := o.collateral - pays;
    if receives != o.debt then 0
    else if o.collateralAsset == CORE then OnlyIf(rest < 0, -rest)
    else OnlyIf(rest > 0, rest)
  }

  lemma FillCallMoves(m: Measure, s: Books, k: CallKey, pays: nat, receives: nat)
    requires k in s.calls && receives <= s.calls[k].debt && FillCall(s, k, pays, receives).Some?
    ensures var o := s.calls[k];
            Total(m, FillCall(s, k, pays, receives).value.0) ==
            Total(m, s) - Gain(m, o.borrower, o.collateralAsset, pays) + Covering(m, o.borrower, o.debtAsset, receives)
                        + OnlyIf(m == CoreGap(o.borrower), CallDrift(o, pays, receives))
  {
    hide Total, ReduceCall, ReleaseCollateral, AddCore;
    var o := s.calls[k];
    var s1 := ReduceCall(s, k, pays, receives);
    CallReduced(m, s, k, pays, receives);
    if receives == o.debt {
      var s2 := ReleaseCollateral(s1, o.borrower, o.collateralAsset, o.collateral - pays).value;
      CollateralReleased(m, s1, o.borrower, o.collateralAsset, o.collateral - pays);
      CoreMoves(m, s2, o.borrower, o.collateralAsset, -(pays as int));
    } else {
      CoreMoves(m, s1, o.borrower, o.collateralAsset, -(pays as int));
    }
  }

  lemma CollateralReleasedFrame(s: Books, u: AccountId, a: AssetId, rest: int)
    requires ReleaseCollateral(s, u, a, rest).Some?
    ensures var s' := ReleaseCollateral(s, u, a, rest).value;
            s' == s.(balances := s'.balances, coreInOrders := s'.coreInOrders)
  {
  }

  lemma FillCallFrame(s: Books, k: CallKey, pays: nat, receives: nat)
    requires k in s.calls && receives <= s.calls[k].debt && FillCall(s, k, pays, receives).Some?
    ensures var o, (s', gone) := s.calls[k], FillCall(s, k, pays, receives).value;
            && s' == s.(balances := s'.balances, coreInOrders := s'.coreInOrders, assets := s'.assets, calls := s'.calls)
            && s'.assets == AddSupply(s, o.debtAsset, -(receives as int)).assets
            && s'.calls == (if gone then s.calls - {k}
                            else s.calls[k := o.(debt := o.debt - receives, collateral := o.collateral - pays)])
            && (gone <==> receives == o.debt)
  {
    hide ReleaseCollateral, AddCore;
    var o := s.calls[k];
    if receives == o.debt {
      CollateralReleasedFrame(ReduceCall(s, k, pays, receives), o.borrower, o.collateralAsset, o.collateral - pays);
    }
  }

  /** A fill goes through unless a position that ends has less collateral than its owner can make up for. */
  lemma FillCallSucceeds(s: Books, k: CallKey, pays: nat, receives: nat)
    requires k in s.calls && receives <= s.calls[k].debt
    ensures var o := s.calls[k];
            FillCall(s, k, pays, receives).Some? <==>
              o.debtAsset in s.assets
              && (receives == o.debt ==> BalanceOf(s, o.borrower, o.collateralAsset) + o.collateral - pays >= 0)
  {
    hide AddCore, AdjustBalance;
    var o := s.calls[k];
    if o.debtAsset in s.assets {
      BalanceAdjusted(ReduceCall(s, k, pays, receives), o.borrower, o.collateralAsset, o.collateral - pays);
    }
  }

  // ----- short orders -----

  /** The collateral that a fill moves into the position: the rest when it fills the order, else a share by price. */
  function ShortCollateral(o: ShortOrder, pays: nat): Option<int> {
    if pays == o.forSale then Some(o.availableCollateral) else Times(pays, o.sellPrice.base.id, o.sellPrice)
  }

  function GrownCall(s: Books, k: CallKey, collateralAsset: AssetId, debt: nat, collateral: int,
                     ratio: Ratio): CallOrder {
    if k in s.calls then
      var o := s.calls[k];
      o.(debt := o.debt + debt, collateral := o.collateral + collateral, maintenanceRatio := ratio)
    else
      CallOrder(k.0, debt, k.1, collateral, collateralAsset, MaxPrice(collateralAsset, k.1), ratio)
  }

  /** Opens the position of an account or adds to it, with a new call price. */
  function GrowCall(
    s: Books, k: CallKey, collateralAsset: AssetId, debt: nat, collateral: int, ratio: Ratio): Option<Books> {
    var o := GrownCall(s, k, collateralAsset, debt, collateral, ratio);
    match CallPrice(o.debt, o.debtAsset, o.collateral, o.collateralAsset, ratio)
    case None => None
    case Some(price) => Some(PutCall(s, k, o.(callPrice := price)))
  }

  /** The position that `k` names is that account's, and has its collateral in this asset. */
  predicate Agrees(s: Books, k: CallKey, collateralAsset: AssetId) {
    k in s.calls ==>
      s.calls[k].borrower == k.0 && s.calls[k].debtAsset == k.1 && s.calls[k].collateralAsset == collateralAsset
  }

  lemma CallGrown(m: Measure, s: Books, k: CallKey, collateralAsset: AssetId, debt: nat, collateral: int, ratio: Ratio)
    requires Agrees(s, k, collateralAsset)
    requires GrowCall(s, k, collateralAsset, debt, collateral, ratio).Some?
    ensures Total(m, GrowCall(s, k, collateralAsset, debt, collateral, ratio).value) ==
            Total(m, s) + Gain(m, k.0, collateralAsset, collateral) + Debt(m, k.0, k.1, debt)
                        + InOrder(m, k.0, collateralAsset, collateral)
  {
    hide Total, CallPrice;
    var o := GrownCall(s, k, collateralAsset, debt, collateral, ratio);
    var price := CallPrice(o.debt, o.debtAsset, o.collateral, o.collateralAsset, ratio).value;
    CallMoves(m, s, k, o.(callPrice := price));
  }

  /** The order shrinks; a rest too small to ask for anything is refunded with its collateral. */
  function ReduceShort(s: Books, id: OrderId, pays: nat, collateral: int): Option<(Books, bool)>
    requires id in s.shorts && pays <= s.shorts[id].forSale
  {
    var o := s.shorts[id];
    if pays == o.forSale then Some((DropShort(s, id), true))
    else
      var o' := o.(forSale := o.forSale - pays, availableCollateral := o.availableCollateral - collateral);
      match Times(o'.forSale, o'.sellPrice.base.id, o'.sellPrice)
      case None => None
      case Some(asked) =>
        if asked > 0 then Some((PutShort(s, id, o'), false))
        else
          match ReturnCollateral(PutShort(s, id, o'), o')
          case None => None
          case Some(s') => Some((DropShort(s', id), true))
  }

  function ReturnCollateral(s: Books, o: ShortOrder): Option<Books> {
    match AdjustBalance(s, o.seller, o.sellPrice.quote.id, o.availableCollateral)
    case None => None
    case Some(s') => Some(AddCore(s', o.seller, o.sellPrice.quote.id, -o.availableCollateral))
  }

  lemma CollateralReturned(m: Measure, s: Books, o: ShortOrder)
    requires ReturnCollateral(s, o).Some?
    ensures Total(m, ReturnCollateral(s, o).value) == Total(m, s) + ShortWeight(m, o)
  {
    hide Total, AdjustBalance, AddCore;
    var a := o.sellPrice.quote.id;
    BalanceMoves(m, s, o.seller, a, o.availableCollateral);
    CoreMoves(m, AdjustBalance(s, o.seller, a, o.availableCollateral).value, o.seller, a, -o.availableCollateral);
  }

  lemma CollateralReturnedFrame(s: Books, o: ShortOrder)
    requires ReturnCollateral(s, o).Some?
    ensures var s' := ReturnCollateral(s, o).value;
            s' == s.(balances := s'.balances, coreInOrders := s'.coreInOrders)
  {
  }

  lemma ShortWeightSplits(m: Measure, o: ShortOrder, o': ShortOrder, collateral: int)
    requires o'.seller == o.seller && o'.sellPrice == o.sellPrice
    requires o'.availableCollateral == o.availableCollateral - collateral
    ensures ShortWeight(m, o) == ShortWeight(m, o') + ShortWeight(m, o.(availableCollateral := collateral))
    ensures collateral == o.availableCollateral ==>
              ShortWeight(m, o) == ShortWeight(m, o.(availableCollateral := collateral))
  {
  }

  /** Refunding what is left of an order and dropping it changes no measure. */
  lemma ShortRefunded(m: Measure, rest: Books, id: OrderId)
    requires id in rest.shorts && ReturnCollateral(rest, rest.shorts[id]).Some?
    ensures Total(m, DropShort(ReturnCollateral(rest, rest.shorts[id]).value, id)) == Total(m, rest)
  {
    hide Total, ReturnCollateral, ShortWeight;
    var o := rest.shorts[id];
    CollateralReturned(m, rest, o);
    CollateralReturnedFrame(rest, o);
    ShortMoves(m, ReturnCollateral(rest, o).value, id, o);
  }

  lemma ShortReduced(m: Measure, s: Books, id: OrderId, pays: nat, collateral: int)
    requires id in s.shorts && pays <= s.shorts[id].forSale && ReduceShort(s, id, pays, collateral).Some?
    requires pays == s.shorts[id].forSale ==> collateral == s.shorts[id].availableCollateral
    ensures Total(m, ReduceShort(s, id, pays, collateral).value.0) ==
            Total(m, s) - ShortWeight(m, s.shorts[id].(availableCollateral := collateral))
  {
    hide Total, Times, ReturnCollateral, ShortWeight;
    var o := s.shorts[id];
    var o' := o.(forSale := o.forSale - pays, availableCollateral := o.availableCollateral - collateral);
    ShortWeightSplits(m, o, o', collateral);
    ShortMoves(m, s, id, o');
    if pays != o.forSale && ReturnCollateral(PutShort(s, id, o'), o').Some? {
      ShortRefunded(m, PutShort(s, id, o'), id);
    }
  }

  /** What was sold comes into being; the proceeds, less fees, join the running total. Also returns those. */
  function ShortProceeds(s: Books, id: OrderId, pays: nat, receives: nat): (Books, int)
    requires id in s.shorts && {s.shorts[id].sellPrice.base.id, s.shorts[id].sellPrice.quote.id} <= s.assets.Keys
  {
    var o := s.shorts[id];
    var (s1, fee) := PayFees(s, o.sellPrice.quote.id, receives);
    var s2 := AddCore(s1, o.seller, o.sellPrice.quote.id, receives - fee);
    (AddSupply(s2, o.sellPrice.base.id, pays), receives - fee)
  }

  lemma ShortProceedsFrame(s: Books, id: OrderId, pays: nat, receives: nat)
    requires id in s.shorts && {s.shorts[id].sellPrice.base.id, s.shorts[id].sellPrice.quote.id} <= s.assets.Keys
    ensures var (s', net) := ShortProceeds(s, id, pays, receives);
            && s' == s.(coreInOrders := s'.coreInOrders, assets := s'.assets) && SameAssets(s, s')
            && net == receives - FeeOf(s, s.shorts[id].sellPrice.quote.id, receives)
  {
  }

  lemma ShortProceedsMove(m: Measure, s: Books, id: OrderId, pays: nat, receives: nat)
    requires id in s.shorts && {s.shorts[id].sellPrice.base.id, s.shorts[id].sellPrice.quote.id} <= s.assets.Keys
    ensures var o := s.shorts[id];
            var (s', net) := ShortProceeds(s, id, pays, receives);
            && net == receives - FeeOf(s, o.sellPrice.quote.id, receives)
            && Total(m, s') ==
            Total(m, s) + OnlyIf(m == NetHoldings(o.sellPrice.quote.id), receives - net)
                        - OnlyIf(m == NetHoldings(o.sellPrice.base.id) || m == NetDebt(o.sellPrice.base.id), pays)
                        - InOrder(m, o.seller, o.sellPrice.quote.id, net)
  {
    hide Total, PayFees, AddCore;
    var o := s.shorts[id];
    var (s1, fee) := PayFees(s, o.sellPrice.quote.id, receives);
    FeesPaid(m, s, o.sellPrice.quote.id, receives);
    CoreMoves(m, s1, o.seller, o.sellPrice.quote.id, receives - fee);
    SupplyMoves(m, AddCore(s1, o.seller, o.sellPrice.quote.id, receives - fee), o.sellPrice.base.id, pays);
  }

  /** The proceeds and the order's share of collateral go into the position, with the debt. */
  function ShortPaid(s: Books, id: OrderId, pays: nat, receives: nat, collateral: int): Option<Books>
    requires id in s.shorts && {s.shorts[id].sellPrice.base.id, s.shorts[id].sellPrice.quote.id} <= s.assets.Keys
  {
    var o := s.shorts[id];
    var (s', net) := ShortProceeds(s, id, pays, receives);
    GrowCall(s', (o.seller, o.sellPrice.base.id), o.sellPrice.quote.id, pays, collateral + net, o.maintenanceRatio)
  }

  lemma ShortPaidFrame(s: Books, id: OrderId, pays: nat, receives: nat, collateral: int)
    requires id in s.shorts && {s.shorts[id].sellPrice.base.id, s.shorts[id].sellPrice.quote.id} <= s.assets.Keys
    requires ShortPaid(s, id, pays, receives, collateral).Some?
    ensures var s' := ShortPaid(s, id, pays, receives, collateral).value;
            && s' == s.(coreInOrders := s'.coreInOrders, assets := s'.assets, calls := s'.calls)
            && SameAssets(s, s')
  {
  }

  lemma ShortPaidMoves(m: Measure, s: Books, id: OrderId, pays: nat, receives: nat, collateral: int)
    requires id in s.shorts && {s.shorts[id].sellPrice.base.id, s.shorts[id].sellPrice.quote.id} <= s.assets.Keys
    requires Agrees(s, (s.shorts[id].seller, s.shorts[id].sellPrice.base.id), s.shorts[id].sellPrice.quote.id)
    requires ShortPaid(s, id, pays, receives, collateral).Some?
    ensures var o := s.shorts[id];
            Total(m, ShortPaid(s, id, pays, receives, collateral).value) ==
            Total(m, s) + Gain(m, o.seller, o.sellPrice.quote.id, collateral)
                        + Receipt(m, o.seller, o.sellPrice.quote.id, receives, FeeOf(s, o.sellPrice.quote.id, receives))
                        - Covering(m, o.seller, o.sellPrice.base.id, pays)
                        + InOrder(m, o.seller, o.sellPrice.quote.id, collateral)
  {
    hide Total, ShortProceeds, GrowCall;
    var o := s.shorts[id];
    var (s', net) := ShortProceeds(s, id, pays, receives);
    ShortProceedsMove(m, s, id, pays, receives);
    ShortProceedsFrame(s, id, pays, receives);
    CallGrown(m, s', (o.seller, o.sellPrice.base.id), o.sellPrice.quote.id, pays, collateral + net, o.maintenanceRatio);
  }

  function FillShort(s: Books, id: OrderId, pays: nat, receives: nat): Option<(Books, bool)>
    requires id in s.shorts && pays <= s.shorts[id].forSale
  {
    var o := s.shorts[id];
    if o.sellPrice.base.id !in s.assets || o.sellPrice.quote.id !in s.assets || ShortCollateral(o, pays).None? then None
    else
      var collateral := ShortCollateral(o, pays).value;
      if ShortPaid(s, id, pays, receives, collateral).None? then None
      else ReduceShort(ShortPaid(s, id, pays, receives, collateral).value, id, pays, collateral)
  }

  lemma FillShortMoves(m: Measure, s: Books, id: OrderId, pays: nat, receives: nat)
    requires id in s.shorts && pays <= s.shorts[id].forSale && FillShort(s, id, pays, receives).Some?
    requires Agrees(s, (s.shorts[id].seller, s.shorts[id].sellPrice.base.id), s.shorts[id].sellPrice.quote.id)
    ensures var o := s.shorts[id];
            Total(m, FillShort(s, id, pays, receives).value.0) ==
            Total(m, s) + Receipt(m, o.seller, o.sellPrice.quote.id, receives, FeeOf(s, o.sellPrice.quote.id, receives))
                        - Covering(m, o.seller, o.sellPrice.base.id, pays)
  {
    hide Total, ShortPaid, ReduceShort, Times;
    var collateral := ShortCollateral(s.shorts[id], pays).value;
    ShortPaidMoves(m, s, id, pays, receives, collateral);
    ShortPaidFrame(s, id, pays, receives, collateral);
    ShortReduced(m, ShortPaid(s, id, pays, receives, collateral).value, id, pays, collateral);
  }

  /** The order shrinks by what it pays and by this share of collateral, and is removed when the rest asks for nothing. */
  ghost predicate ShortShrinks(s: Books, id: OrderId, pays: nat, share: int, s': Books)
    requires id in s.shorts && pays <= s.shorts[id].forSale
  {
    var o := s.shorts[id];
    var o' := o.(forSale := o.forSale - pays, availableCollateral := o.availableCollateral - share);
    s'.shorts == (if o'.forSale * o.sellPrice.quote.amount < o.sellPrice.base.amount then s.shorts - {id} else s.shorts[id := o'])
  }

  lemma ReduceShortShrinks(s: Books, id: OrderId, pays: nat, share: int)
    requires id in s.shorts && pays <= s.shorts[id].forSale && ReduceShort(s, id, pays, share).Some?
    ensures var (s', gone) := ReduceShort(s, id, pays, share).value;
            && s' == s.(balances := s'.balances, coreInOrders := s'.coreInOrders, shorts := s'.shorts)
            && ShortShrinks(s, id, pays, share, s') && (gone <==> id !in s'.shorts)
  {
    hide Times, ReturnCollateral;
    var o := s.shorts[id];
    if pays != o.forSale {
      RestAsksNothing(o.forSale - pays, o.sellPrice);
      var o' := o.(forSale := o.forSale - pays, availableCollateral := o.availableCollateral - share);
      if Times(o'.forSale, o'.sellPrice.base.id, o'.sellPrice) == Some(0) {
        CollateralReturnedFrame(PutShort(s, id, o'), o');
        PutThenDrop(s.shorts, id, o');
      }
    }
  }

  /** The share of a fill: all when the order is filled, else the collateral that its price asks for, rounded down. */
  predicate IsShare(o: ShortOrder, pays: nat, share: int) {
    if pays == o.forSale then share == o.availableCollateral
    else share * o.sellPrice.base.amount <= pays * o.sellPrice.quote.amount < (share + 1) * o.sellPrice.base.amount
  }

  lemma ShareIsByPrice(o: ShortOrder, pays: nat)
    requires ShortCollateral(o, pays).Some?
    ensures IsShare(o, pays, ShortCollateral(o, pays).value)
  {
    hide Times;
    if pays != o.forSale { TimesRoundsDown(pays, o.sellPrice.base.id, o.sellPrice); }
  }

  /** A position grows by a debt and collateral, or begins with them; its call price is that of what it has then. */
  ghost predicate CallGrows(s: Books, k: CallKey, debt: nat, collateral: int, collateralAsset: AssetId,
                            ratio: Ratio, s': Books) {
    && k in s'.calls && s'.calls == s.calls[k := s'.calls[k]]
    && var o' := s'.calls[k];
       && o'.maintenanceRatio == ratio
       && CallPrice(o'.debt, o'.debtAsset, o'.collateral, o'.collateralAsset, ratio) == Some(o'.callPrice)
       && if k in s.calls
          then o'.debt == s.calls[k].debt + debt && o'.collateral == s.calls[k].collateral + collateral
               && o'.borrower == s.calls[k].borrower && o'.debtAsset == s.calls[k].debtAsset
               && o'.collateralAsset == s.calls[k].collateralAsset
          else o'.debt == debt && o'.collateral == collateral
               && o'.borrower == k.0 && o'.debtAsset == k.1 && o'.collateralAsset == collateralAsset
  }

  lemma GrowCallGrows(s: Books, k: CallKey, collateralAsset: AssetId, debt: nat, collateral: int, ratio: Ratio)
    requires GrowCall(s, k, collateralAsset, debt, collateral, ratio).Some?
    ensures CallGrows(s, k, debt, collateral, collateralAsset, ratio,
                      GrowCall(s, k, collateralAsset, debt, collateral, ratio).value)
  {
    hide CallPrice;
  }

  /**
   Of a short order that is filled, its share of collateral and the proceeds less the fee go into the position of its
   seller, whose debt grows by what the order pays; the order keeps the rest of both.
   */
  lemma FillShortFrame(s: Books, id: OrderId, pays: nat, receives: nat) returns (share: int)
    requires id in s.shorts && pays <= s.shorts[id].forSale && FillShort(s, id, pays, receives).Some?
    ensures IsShare(s.shorts[id], pays, share)
    ensures var o, (s', gone) := s.shorts[id], FillShort(s, id, pays, receives).value;
            var (x, y) := (o.sellPrice.quote.id, o.sellPrice.base.id);
            && s' == s.(balances := s'.balances, coreInOrders := s'.coreInOrders, assets := s'.assets,
                        calls := s'.calls, shorts := s'.shorts)
            && SameAssets(s, s') && ShortShrinks(s, id, pays, share, s') && (gone <==> id !in s'.shorts)
            && CallGrows(s, (o.seller, y), pays, share + receives - FeeOf(s, x, receives), x, o.maintenanceRatio, s')
  {
    hide ShortProceeds, GrowCall, Times, ReduceShort, FeeOf, CallPrice, IsShare, CallGrows, ShortShrinks;
    var o := s.shorts[id];
    share := ShortCollateral(o, pays).value;
    ShareIsByPrice(o, pays);
    var (s1, net) := ShortProceeds(s, id, pays, receives);
    ShortProceedsFrame(s, id, pays, receives);
    GrowCallGrows(s1, (o.seller, o.sellPrice.base.id), o.sellPrice.quote.id, pays, share + net, o.maintenanceRatio);
    var s2 := ShortPaid(s, id, pays, receives, share).value;
    ShortPaidFrame(s, id, pays, receives, share);
    ReduceShortShrinks(s2, id, pays, share);
    ShrinksAlike(s, s2, id, pays, share, FillShort(s, id, pays, receives).value.0);
    GrowsAlike(s, s1, s2, FillShort(s, id, pays, receives).value.0, (o.seller, o.sellPrice.base.id), pays, share + net,
               o.sellPrice.quote.id, o.maintenanceRatio);
  }

  lemma ShrinksAlike(s: Books, s1: Books, id: OrderId, pays: nat, share: int, s': Books)
    requires s.shorts == s1.shorts && id in s.shorts && pays <= s.shorts[id].forSale
    requires ShortShrinks(s1, id, pays, share, s')
    ensures ShortShrinks(s, id, pays, share, s')
  {
  }

  lemma GrowsAlike(s: Books, s1: Books, s2: Books, s': Books, k: CallKey, debt: nat, collateral: int,
                   collateralAsset: AssetId, ratio: Ratio)
    requires s1.calls == s.calls && s'.calls == s2.calls && CallGrows(s1, k, debt, collateral, collateralAsset, ratio, s2)
    ensures CallGrows(s, k, debt, collateral, collateralAsset, ratio, s')
  {
  }

  /** The reduction fails only at a rest that asks for too much, or whose refund would overdraw the seller. */
  lemma ReduceShortSucceeds(s: Books, id: OrderId, pays: nat, share: int)
    requires id in s.shorts && pays <= s.shorts[id].forSale
    ensures var o := s.shorts[id];
            var (x, y, rest) := (o.sellPrice.quote.amount, o.sellPrice.base.amount, o.forSale - pays);
            ReduceShort(s, id, pays, share).Some? <==>
              || pays == o.forSale
              || (y <= rest * x < (MAX_SHARE_SUPPLY + 1) * y)
              || (rest * x < y && BalanceOf(s, o.seller, o.sellPrice.quote.id) + o.availableCollateral - share >= 0)
  {
    hide Times, AdjustBalance, AddCore;
    var o := s.shorts[id];
    if pays != o.forSale {
      var rest := o.forSale - pays;
      TimesSucceeds(rest, o.sellPrice.base.id, o.sellPrice);
      if Times(rest, o.sellPrice.base.id, o.sellPrice).Some? { RestAsksNothing(rest, o.sellPrice); }
      var o' := o.(forSale := rest, availableCollateral := o.availableCollateral - share);
      BalanceAdjusted(PutShort(s, id, o'), o.seller, o.sellPrice.quote.id, o'.availableCollateral);
    }
  }

  /** Whether the position of a key can take this debt and collateral: its new call price must be one. */
  predicate CanGrow(s: Books, k: CallKey, debt: nat, collateral: int, collateralAsset: AssetId, ratio: Ratio) {
    if k in s.calls
    then var o := s.calls[k]; CallPrice(o.debt + debt, o.debtAsset, o.collateral + collateral, o.collateralAsset, ratio).Some?
    else CallPrice(debt, k.1, collateral, collateralAsset, ratio).Some?
  }

  /**
   A fill of a short order goes through when its share of collateral is within the largest supply, the position has a
   call price with it, and what is left of the order can stay or be refunded.
   */
  lemma FillShortSucceeds(s: Books, id: OrderId, pays: nat, receives: nat, share: int)
    requires id in s.shorts && pays <= s.shorts[id].forSale && IsShare(s.shorts[id], pays, share)
    ensures var o := s.shorts[id];
            var (x, y, rest) := (o.sellPrice.quote.amount, o.sellPrice.base.amount, o.forSale - pays);
            var (a, b) := (o.sellPrice.quote.id, o.sellPrice.base.id);
            FillShort(s, id, pays, receives).Some? <==>
              && a in s.assets && b in s.assets && (pays != o.forSale ==> share <= MAX_SHARE_SUPPLY)
              && CanGrow(s, (o.seller, b), pays, share + receives - FeeOf(s, a, receives), a, o.maintenanceRatio)
              && (|| pays == o.forSale
                  || (y <= rest * x < (MAX_SHARE_SUPPLY + 1) * y)
                  || (rest * x < y && BalanceOf(s, o.seller, a) + o.availableCollateral - share >= 0))
  {
    hide ShortProceeds, GrowCall, Times, ReduceShort, FeeOf, CallPrice;
    var o := s.shorts[id];
    var (a, b) := (o.sellPrice.quote.id, o.sellPrice.base.id);
    if a in s.assets && b in s.assets {
      ShareSucceeds(o, pays, share);
      if pays == o.forSale || share <= MAX_SHARE_SUPPLY {
        var (s1, net) := ShortProceeds(s, id, pays, receives);
        ShortProceedsFrame(s, id, pays, receives);
            CanGrowSucceeds(s, s1, (o.seller, b), pays, share + net, a, o.maintenanceRatio);
        if ShortPaid(s, id, pays, receives, share).Some? {
          var s2 := ShortPaid(s, id, pays, receives, share).value;
          ShortPaidFrame(s, id, pays, receives, share);
          ShortPaidBalances(s, id, pays, receives, share);
          ReduceShortSucceeds(s2, id, pays, share);
        }
      }
    }
  }

  lemma ShareSucceeds(o: ShortOrder, pays: nat, share: int)
    requires pays <= o.forSale && IsShare(o, pays, share)
    ensures ShortCollateral(o, pays).Some? <==> (pays != o.forSale ==> share <= MAX_SHARE_SUPPLY)
    ensures ShortCollateral(o, pays).Some? ==> ShortCollateral(o, pays).value == share
  {
    hide Times;
    if pays != o.forSale {
      var (x, y) := (o.sellPrice.quote.amount, o.sellPrice.base.amount);
      TimesSucceeds(pays, o.sellPrice.base.id, o.sellPrice);
      if share <= MAX_SHARE_SUPPLY {
        ProductGrows(share + 1, MAX_SHARE_SUPPLY + 1, y);
      } else {
        ProductGrows(MAX_SHARE_SUPPLY + 1, share, y);
      }
      if ShortCollateral(o, pays).Some? {
        ShareIsByPrice(o, pays);
        OnlyQuotient(pays * x, y, share, ShortCollateral(o, pays).value);
      }
    }
  }

  lemma OnlyQuotient(n: nat, d: int, q: int, r: int)
    requires d > 0 && q * d <= n < (q + 1) * d && r * d <= n < (r + 1) * d
    ensures q == r
  {
    if q < r {
      MultiplesApart(q, r, d);
    } else if r < q {
      MultiplesApart(r, q, d);
    }
  }

  lemma CanGrowSucceeds(s: Books, s1: Books, k: CallKey, debt: nat, collateral: int, collateralAsset: AssetId,
                        ratio: Ratio)
    requires s1.calls == s.calls
    ensures GrowCall(s1, k, collateralAsset, debt, collateral, ratio).Some? <==>
              CanGrow(s, k, debt, collateral, collateralAsset, ratio)
  {
    hide CallPrice;
  }

  lemma ShortPaidBalances(s: Books, id: OrderId, pays: nat, receives: nat, collateral: int)
    requires id in s.shorts && {s.shorts[id].sellPrice.base.id, s.shorts[id].sellPrice.quote.id} <= s.assets.Keys
    requires ShortPaid(s, id, pays, receives, collateral).Some?
    ensures ShortPaid(s, id, pays, receives, collateral).value.balances == s.balances
  {
    hide ShortProceeds;
    ShortProceedsFrame(s, id, pays, receives);
  }

  lemma CallGrownValid(s: Books, k: CallKey, collateralAsset: AssetId, debt: nat, collateral: int, ratio: Ratio)
    requires Valid(s) && Backing(s, k.1) == Some(collateralAsset)
    requires GrowCall(s, k, collateralAsset, debt, collateral, ratio).Some?
    ensures Agrees(s, k, collateralAsset) && Valid(GrowCall(s, k, collateralAsset, debt, collateral, ratio).value)
  {
  }

  lemma PutShortFrame(s: Books, id: OrderId, o: ShortOrder)
    requires id in s.shorts && o.sellPrice == s.shorts[id].sellPrice
    ensures SameShorts(s, PutShort(s, id, o)) && SameShorts(s, DropShort(s, id))
  {
  }

  /** Accounts apart, only short orders changed, and those but in amounts. */
  ghost predicate SameShorts(s: Books, s': Books) {
    && s' == s.(balances := s'.balances, coreInOrders := s'.coreInOrders, shorts := s'.shorts)
    && forall i <- s'.shorts :: i in s.shorts && s'.shorts[i].sellPrice == s.shorts[i].sellPrice
  }

  lemma ReduceShortFrame(s: Books, id: OrderId, pays: nat, collateral: int)
    requires id in s.shorts && pays <= s.shorts[id].forSale && ReduceShort(s, id, pays, collateral).Some?
    ensures SameShorts(s, ReduceShort(s, id, pays, collateral).value.0)
  {
    hide Times, ReturnCollateral, SameShorts, PutShort, DropShort;
    var o := s.shorts[id];
    var o' := o.(forSale := o.forSale - pays, availableCollateral := o.availableCollateral - collateral);
    var rest := PutShort(s, id, o');
    PutShortFrame(s, id, o');
    if pays != o.forSale && ReturnCollateral(rest, o').Some? {
      RefundedFrame(s, rest, id, o');
    }
  }

  lemma RefundedFrame(s: Books, rest: Books, id: OrderId, o: ShortOrder)
    requires SameShorts(s, rest) && ReturnCollateral(rest, o).Some?
    ensures SameShorts(s, DropShort(ReturnCollateral(rest, o).value, id))
  {
    hide ReturnCollateral;
    CollateralReturnedFrame(rest, o);
  }

  /** A fill of a short order keeps every position and short order in its backing asset. */
  lemma FillShortValid(s: Books, id: OrderId, pays: nat, receives: nat)
    requires Valid(s) && id in s.shorts && pays <= s.shorts[id].forSale && FillShort(s, id, pays, receives).Some?
    ensures Agrees(s, (s.shorts[id].seller, s.shorts[id].sellPrice.base.id), s.shorts[id].sellPrice.quote.id)
    ensures Valid(FillShort(s, id, pays, receives).value.0)
  {
    hide ShortProceeds, GrowCall, Times, ReduceShort;
    var o := s.shorts[id];
    var collateral := ShortCollateral(o, pays).value;
    var (s1, net) := ShortProceeds(s, id, pays, receives);
    ShortProceedsFrame(s, id, pays, receives);
    ValidKept(s, s1);
    CallGrownValid(s1, (o.seller, o.sellPrice.base.id), o.sellPrice.quote.id, pays, collateral + net, o.maintenanceRatio);
    var s2 := ShortPaid(s, id, pays, receives, collateral).value;
    ShortPaidFrame(s, id, pays, receives, collateral);
    ReduceShortFrame(s2, id, pays, collateral);
    ValidKept(s2, ReduceShort(s2, id, pays, collateral).value.0);
  }

  // ----- settlements -----

  function ReduceSettlement(s: Books, id: OrderId, pays: nat): Books
    requires id in s.settlements
  {
    var o := s.settlements[id];
    if pays < o.balance then PutSettlement(s, id, o.(balance := o.balance - pays)) else DropSettlement(s, id)
  }

  function FillSettlement(s: Books, id: OrderId, pays: nat, recv: AssetId, receives: nat): Option<(Books, bool)>
    requires id in s.settlements
  {
    if recv !in s.assets then None
    else
      var (s1, fee) := PayFees(s, recv, receives);
      var s2 := ReduceSettlement(s1, id, pays);
      match AdjustBalance(s2, s.settlements[id].owner, recv, receives - fee)
      case None => None
      case Some(s3) => Some((s3, pays >= s.settlements[id].balance))
  }

  lemma FillSettlementMoves(m: Measure, s: Books, id: OrderId, pays: nat, recv: AssetId, receives: nat)
    requires id in s.settlements && pays <= s.settlements[id].balance
    requires FillSettlement(s, id, pays, recv, receives).Some?
    ensures var o := s.settlements[id];
            Total(m, FillSettlement(s, id, pays, recv, receives).value.0) ==
            Total(m, s) - Gain(m, o.owner, o.asset, pays) + Receipt(m, o.owner, recv, receives, FeeOf(s, recv, receives))
  {
    hide Total, PayFees, AdjustBalance;
    var o := s.settlements[id];
    var (s1, fee) := PayFees(s, recv, receives);
    FeesPaid(m, s, recv, receives);
    SettlementMoves(m, s1, id, o.(balance := if pays < o.balance then o.balance - pays else 0));
    BalanceMoves(m, ReduceSettlement(s1, id, pays), o.owner, recv, receives - fee);
  }

  /** A fill goes through unless its fee overdraws the owner's balance. */
  lemma FillSettlementSucceeds(s: Books, id: OrderId, pays: nat, recv: AssetId, receives: nat)
    requires id in s.settlements
    ensures FillSettlement(s, id, pays, recv, receives).Some? <==>
              recv in s.assets && FeeOf(s, recv, receives) <= receives + BalanceOf(s, s.settlements[id].owner, recv)
  {
    hide PayFees, FeeOf, AdjustBalance;
    if recv in s.assets {
      var owner := s.settlements[id].owner;
      var (s1, fee) := PayFees(s, recv, receives);
      FeesLeaveBalances(s, recv, receives, owner, recv);
      BalanceAdjusted(ReduceSettlement(s1, id, pays), owner, recv, receives - fee);
    }
  }

  lemma FillSettlementFrame(s: Books, id: OrderId, pays: nat, recv: AssetId, receives: nat)
    requires id in s.settlements && FillSettlement(s, id, pays, recv, receives).Some?
    ensures recv in s.assets
    ensures var o, (s', gone) := s.settlements[id], FillSettlement(s, id, pays, recv, receives).value;
            && s' == s.(balances := s'.balances, assets := s'.assets, settlements := s'.settlements)
            && s'.assets == PayFees(s, recv, receives).0.assets
            && s'.settlements == (if gone then s.settlements - {id}
                                  else s.settlements[id := o.(balance := o.balance - pays)])
            && (gone <==> pays >= o.balance)
  {
  }
}

/**
 Every operation of the market as one step, the invariant that keeps positions and short
 orders in the backing asset of what they issue, and conservation over every run of steps.
 Guards of the evaluators that only refuse an operation are left to the caller where they
 play no part, so the runs here include all those that the evaluators admit.
 */
module Trading {
  import opened Wrappers
  import opened Assets
  import opened Sums
  import opened Ledger
  import opened Fills
  import opened Matching

  datatype Op =
    | PlaceLimit(id: OrderId, limit: LimitOrder)
    | CancelLimitOrder(id: OrderId)
    | PlaceShort(id: OrderId, short: ShortOrder)
    | CancelShortOrder(id: OrderId)
    | MatchLimitOrders(bid: OrderId, ask: OrderId, price: MarketPrice)
    | MatchShortOrder(bid: OrderId, ask: OrderId, price: MarketPrice)
    | MarginCall(call: CallKey, order: OrderId, isLimit: bool)
    | RequestSettlement(id: OrderId, settlement: Settlement)
    | Settle(call: CallKey, id: OrderId, at: SettlementPrice, max: nat)
    | Cover(call: CallKey, debt: nat, addCollateral: int, ratio: Option<Ratio>)
    | Close(call: CallKey)

  // ----- the steps -----

  /** What is offered leaves the balance for the order, and joins the running total. */
  function Offer(s: Books, u: AccountId, a: AssetId, amount: nat): Option<Books> {
    match AdjustBalance(s, u, a, -(amount as int))
    case None => None
    case Some(s') => Some(AddCore(s', u, a, amount))
  }

  function PlacedLimit(s: Books, id: OrderId, o: LimitOrder): Option<Books> {
    if id in s.limits || o.forSale != o.sellPrice.base.amount || Offer(s, o.seller, o.sellPrice.base.id, o.forSale).None?
    then None
    else Some(PutLimit(Offer(s, o.seller, o.sellPrice.base.id, o.forSale).value, id, o))
  }

  function PlacedShort(s: Books, id: OrderId, o: ShortOrder): Option<Books> {
    if id in s.shorts || o.availableCollateral < 0 || Backing(s, o.sellPrice.base.id) != Some(o.sellPrice.quote.id)
       || Offer(s, o.seller, o.sellPrice.quote.id, o.availableCollateral).None?
    then None
    else Some(PutShort(Offer(s, o.seller, o.sellPrice.quote.id, o.availableCollateral).value, id, o))
  }

  function CancelledShort(s: Books, id: OrderId): Option<Books>
    requires id in s.shorts
  {
    match ReturnCollateral(s, s.shorts[id])
    case None => None
    case Some(s') => Some(DropShort(s', id))
  }

  /** The order that a margin call buys from, and what it sells. */
  predicate OnOffer(s: Books, order: OrderId, isLimit: bool) {
    if isLimit then order in s.limits else order in s.shorts
  }

  function OfferPrice(s: Books, order: OrderId, isLimit: bool): MarketPrice
    requires OnOffer(s, order, isLimit)
  {
    if isLimit then s.limits[order].sellPrice else s.shorts[order].sellPrice
  }

  function OfferSize(s: Books, order: OrderId, isLimit: bool): nat
    requires OnOffer(s, order, isLimit)
  {
    if isLimit then s.limits[order].forSale else s.shorts[order].forSale
  }

  predicate CanCall(s: Books, k: CallKey, order: OrderId, isLimit: bool) {
    && k in s.calls && OnOffer(s, order, isLimit)
    && OfferPrice(s, order, isLimit).base.id == s.calls[k].debtAsset
    && OfferPrice(s, order, isLimit).quote.id == s.calls[k].collateralAsset
  }

  /**
   One turn of the margin-call loop: the position buys back as much as it owes and the order
   sells, unless the price is beyond its call price or its collateral cannot cover the whole debt.
   */
  function MarginCalled(s: Books, k: CallKey, order: OrderId, isLimit: bool): Option<Books>
    requires CanCall(s, k, order, isLimit)
  {
    var o, p, size := s.calls[k], OfferPrice(s, order, isLimit), OfferSize(s, order, isLimit);
    var whole := Times(o.debt, o.debtAsset, p);
    var amount := Min(o.debt, size);
    var pays := Times(amount, o.debtAsset, p);
    if !AtMost(p, o.callPrice.Inverse()) || whole.None? || whole.value > o.collateral || pays.None? then None
    else if FillCall(s, k, pays.value, amount).None? then None
    else
      FillCallFrame(s, k, pays.value, amount);
      var s1 := FillCall(s, k, pays.value, amount).value.0;
      if isLimit then
        if FillLimit(s1, order, amount, pays.value).None? then None
        else Some(FillLimit(s1, order, amount, pays.value).value.0)
      else
        if FillShort(s1, order, amount, pays.value).None? then None
        else Some(FillShort(s1, order, amount, pays.value).value.0)
  }

  function SettlementRequested(s: Books, id: OrderId, r: Settlement): Option<Books> {
    if id in s.settlements then None
    else
      match AdjustBalance(s, r.owner, r.asset, -(r.balance as int))
      case None => None
      case Some(s') => Some(PutSettlement(s', id, r))
  }

  /** The payer covers debt from a balance: both the balance and the supply shrink. */
  function PaidDebt(s: Books, u: AccountId, a: AssetId, amount: nat): Option<Books>
    requires a in s.assets
  {
    match AdjustBalance(s, u, a, -(amount as int))
    case None => None
    case Some(s') => Some(AddSupply(s', a, -(amount as int)))
  }

  /** Added collateral is taken from the balance; collateral that is taken out goes nowhere. */
  function Covered(s: Books, k: CallKey, debt: nat, addCollateral: int, ratio: Option<Ratio>): Option<Books>
    requires k in s.calls && s.calls[k].debtAsset in s.assets && debt < s.calls[k].debt
  {
    var o := s.calls[k];
    var o' := o.(debt := o.debt - debt, collateral := o.collateral + addCollateral,
                 maintenanceRatio := if ratio.Some? then ratio.value else o.maintenanceRatio);
    var price := CallPrice(o'.debt, o'.debtAsset, o'.collateral, o'.collateralAsset, o'.maintenanceRatio);
    if PaidDebt(s, o.borrower, o.debtAsset, debt).None? || price.None? then None
    else Collateralized(PutCall(PaidDebt(s, o.borrower, o.debtAsset, debt).value, k, o'.(callPrice := price.value)),
                        o.borrower, o.collateralAsset, addCollateral)
  }

  function Collateralized(s: Books, u: AccountId, a: AssetId, amount: int): Option<Books> {
    if amount > 0 then Offer(s, u, a, amount) else Some(AddCore(s, u, a, amount))
  }

  function Closed(s: Books, k: CallKey): Option<Books>
    requires k in s.calls && s.calls[k].debtAsset in s.assets
  {
    var o := s.calls[k];
    if o.collateral < 0 || PaidDebt(s, o.borrower, o.debtAsset, o.debt).None? then None
    else Some(DropCall(Refund(PaidDebt(s, o.borrower, o.debtAsset, o.debt).value, o.borrower, o.collateralAsset,
                              o.collateral), k))
  }

  function Step(s: Books, op: Op): Option<Books> {
    match op
    case PlaceLimit(id, o) => PlacedLimit(s, id, o)
    case CancelLimitOrder(id) => if id in s.limits then Some(CancelLimit(s, id)) else None
    case PlaceShort(id, o) => PlacedShort(s, id, o)
    case CancelShortOrder(id) => if id in s.shorts then CancelledShort(s, id) else None
    case MatchLimitOrders(bid, ask, p) =>
      if !CanMatchLimits(s, bid, ask, p) || MatchLimits(s, bid, ask, p).None? then None
      else Some(MatchLimits(s, bid, ask, p).value.0)
    case MatchShortOrder(bid, ask, p) =>
      if !CanMatchShort(s, bid, ask, p) || MatchShort(s, bid, ask, p).None? then None
      else Some(MatchShort(s, bid, ask, p).value.0)
    case MarginCall(k, order, isLimit) =>
      if CanCall(s, k, order, isLimit) then MarginCalled(s, k, order, isLimit) else None
    case RequestSettlement(id, r) => SettlementRequested(s, id, r)
    case Settle(k, id, p, max) =>
      if k !in s.calls || id !in s.settlements || s.settlements[id].asset != s.calls[k].debtAsset
         || MatchSettlement(s, k, id, p, max).None? then None
      else Some(MatchSettlement(s, k, id, p, max).value.0)
    case Cover(k, debt, addCollateral, ratio) =>
      if k in s.calls && s.calls[k].debtAsset in s.assets && debt < s.calls[k].debt
      then Covered(s, k, debt, addCollateral, ratio) else None
    case Close(k) =>
      if k in s.calls && s.calls[k].debtAsset in s.assets then Closed(s, k) else None
  }

  // ----- every step keeps the invariant -----

  lemma OfferMoves(m: Measure, s: Books, u: AccountId, a: AssetId, amount: nat)
    requires Offer(s, u, a, amount).Some?
    ensures Total(m, Offer(s, u, a, amount).value) ==
            Total(m, s) - Gain(m, u, a, amount) - InOrder(m, u, a, amount)
  {
    hide Total, AdjustBalance, AddCore;
    BalanceMoves(m, s, u, a, -(amount as int));
    CoreMoves(m, AdjustBalance(s, u, a, -(amount as int)).value, u, a, amount);
  }

  lemma OfferFrame(s: Books, u: AccountId, a: AssetId, amount: nat)
    requires Offer(s, u, a, amount).Some?
    ensures var s' := Offer(s, u, a, amount).value;
            s' == s.(balances := s'.balances, coreInOrders := s'.coreInOrders)
  {
  }

  lemma DebtPaid(m: Measure, s: Books, u: AccountId, a: AssetId, amount: nat)
    requires a in s.assets && PaidDebt(s, u, a, amount).Some?
    ensures Total(m, PaidDebt(s, u, a, amount).value) ==
            Total(m, s) - Gain(m, u, a, amount) + OnlyIf(m == NetHoldings(a) || m == NetDebt(a), amount)
  {
    hide Total, AdjustBalance;
    BalanceMoves(m, s, u, a, -(amount as int));
    SupplyMoves(m, AdjustBalance(s, u, a, -(amount as int)).value, a, -(amount as int));
  }

  lemma DebtPaidFrame(s: Books, u: AccountId, a: AssetId, amount: nat)
    requires a in s.assets && PaidDebt(s, u, a, amount).Some?
    ensures var s' := PaidDebt(s, u, a, amount).value;
            s' == s.(balances := s'.balances, assets := s'.assets) && SameAssets(s, s')
  {
  }

  lemma MarginCallPays(s: Books, k: CallKey, order: OrderId, isLimit: bool)
    requires CanCall(s, k, order, isLimit) && MarginCalled(s, k, order, isLimit).Some?
    ensures var amount := Min(s.calls[k].debt, OfferSize(s, order, isLimit));
            var pays := Times(amount, s.calls[k].debtAsset, OfferPrice(s, order, isLimit));
            pays.Some? && pays.value <= s.calls[k].collateral && amount <= s.calls[k].debt
  {
    hide FillCall, FillLimit, FillShort;
    TimesIsMonotone(Min(s.calls[k].debt, OfferSize(s, order, isLimit)), s.calls[k].debt, s.calls[k].debtAsset,
                    OfferPrice(s, order, isLimit));
  }

  // ----- conservation, step by step -----

  lemma PlaceConserves(m: Measure, s: Books, id: OrderId, o: LimitOrder)
    requires PlacedLimit(s, id, o).Some?
    ensures Total(m, PlacedLimit(s, id, o).value) == Total(m, s)
  {
    hide Total, Offer;
    OfferMoves(m, s, o.seller, o.sellPrice.base.id, o.forSale);
    OfferFrame(s, o.seller, o.sellPrice.base.id, o.forSale);
    LimitMoves(m, Offer(s, o.seller, o.sellPrice.base.id, o.forSale).value, id, o);
  }

  lemma PlaceShortConserves(m: Measure, s: Books, id: OrderId, o: ShortOrder)
    requires PlacedShort(s, id, o).Some?
    ensures Total(m, PlacedShort(s, id, o).value) == Total(m, s)
  {
    hide Total, Offer;
    OfferMoves(m, s, o.seller, o.sellPrice.quote.id, o.availableCollateral);
    OfferFrame(s, o.seller, o.sellPrice.quote.id, o.availableCollateral);
    ShortMoves(m, Offer(s, o.seller, o.sellPrice.quote.id, o.availableCollateral).value, id, o);
  }

  lemma CancelShortConserves(m: Measure, s: Books, id: OrderId)
    requires id in s.shorts && CancelledShort(s, id).Some?
    ensures Total(m, CancelledShort(s, id).value) == Total(m, s)
  {
    hide Total, ReturnCollateral;
    CollateralReturned(m, s, s.shorts[id]);
    CollateralReturnedFrame(s, s.shorts[id]);
    ShortMoves(m, ReturnCollateral(s, s.shorts[id]).value, id, s.shorts[id]);
  }

  lemma RequestConserves(m: Measure, s: Books, id: OrderId, r: Settlement)
    requires SettlementRequested(s, id, r).Some?
    ensures Total(m, SettlementRequested(s, id, r).value) == Total(m, s)
  {
    hide Total, AdjustBalance;
    BalanceMoves(m, s, r.owner, r.asset, -(r.balance as int));
    SettlementMoves(m, AdjustBalance(s, r.owner, r.asset, -(r.balance as int)).value, id, r);
  }

  /** A borrower covers debt from the balance. */
  function OwnCover(m: Measure, o: CallOrder, amount: nat): int {
    Covering(m, o.borrower, o.debtAsset, amount) - Gain(m, o.borrower, o.debtAsset, amount)
  }

  /** What an update of a position takes out of it, and of the books. */
  function Withdrawn(addCollateral: int): nat {
    if addCollateral < 0 then -addCollateral else 0
  }

  lemma CollateralMoves(m: Measure, s: Books, u: AccountId, a: AssetId, amount: int)
    requires Collateralized(s, u, a, amount).Some?
    ensures Total(m, Collateralized(s, u, a, amount).value) ==
            Total(m, s) - Gain(m, u, a, amount + Withdrawn(amount)) - InOrder(m, u, a, amount)
  {
    hide Total, AddCore, Offer;
    if amount > 0 {
      OfferMoves(m, s, u, a, amount);
    } else {
      CoreMoves(m, s, u, a, amount);
    }
  }

  lemma CoverMoves(m: Measure, s: Books, k: CallKey, debt: nat, addCollateral: int, ratio: Option<Ratio>)
    requires k in s.calls && s.calls[k].debtAsset in s.assets && debt < s.calls[k].debt
    requires Covered(s, k, debt, addCollateral, ratio).Some?
    ensures Total(m, Covered(s, k, debt, addCollateral, ratio).value) ==
            Total(m, s) + OwnCover(m, s.calls[k], debt)
            - Gain(m, s.calls[k].borrower, s.calls[k].collateralAsset, Withdrawn(addCollateral))
  {
    hide Total, Collateralized, PaidDebt, CallPrice;
    var o := s.calls[k];
    var o' := o.(debt := o.debt - debt, collateral := o.collateral + addCollateral,
                 maintenanceRatio := if ratio.Some? then ratio.value else o.maintenanceRatio);
    var price := CallPrice(o'.debt, o'.debtAsset, o'.collateral, o'.collateralAsset, o'.maintenanceRatio).value;
    var s1 := PaidDebt(s, o.borrower, o.debtAsset, debt).value;
    DebtPaid(m, s, o.borrower, o.debtAsset, debt);
    DebtPaidFrame(s, o.borrower, o.debtAsset, debt);
    CallMoves(m, s1, k, o'.(callPrice := price));
    CollateralMoves(m, PutCall(s1, k, o'.(callPrice := price)), o.borrower, o.collateralAsset, addCollateral);
  }

  lemma CloseMoves(m: Measure, s: Books, k: CallKey)
    requires k in s.calls && s.calls[k].debtAsset in s.assets && Closed(s, k).Some?
    ensures Total(m, Closed(s, k).value) == Total(m, s) + OwnCover(m, s.calls[k], s.calls[k].debt)
  {
    hide Total, Refund, PaidDebt;
    var o := s.calls[k];
    var s1 := PaidDebt(s, o.borrower, o.debtAsset, o.debt).value;
    DebtPaid(m, s, o.borrower, o.debtAsset, o.debt);
    DebtPaidFrame(s, o.borrower, o.debtAsset, o.debt);
    Refunded(m, s1, o.borrower, o.collateralAsset, o.collateral);
    CallMoves(m, Refund(s1, o.borrower, o.collateralAsset, o.collateral), k, o);
  }

  /** What a margin call settles, and for how much. */
  function MarginAmount(s: Books, k: CallKey, order: OrderId, isLimit: bool): nat
    requires CanCall(s, k, order, isLimit)
  {
    Min(s.calls[k].debt, OfferSize(s, order, isLimit))
  }

  /** The borrower pays the seller of the order, who sells or issues what covers the debt. */
  function MarginTrade(m: Measure, s: Books, k: CallKey, order: OrderId, isLimit: bool): int
    requires CanCall(s, k, order, isLimit)
    requires Times(MarginAmount(s, k, order, isLimit), s.calls[k].debtAsset, OfferPrice(s, order, isLimit)).Some?
  {
    var (o, amount) := (s.calls[k], MarginAmount(s, k, order, isLimit));
    var pays := Times(amount, o.debtAsset, OfferPrice(s, order, isLimit)).value;
    var seller := if isLimit then s.limits[order].seller else s.shorts[order].seller;
    Payment(m, o.borrower, seller, o.collateralAsset, pays, FeeOf(s, o.collateralAsset, pays))
    + Covering(m, o.borrower, o.debtAsset, amount)
    - (if isLimit then Gain(m, seller, o.debtAsset, amount) else Covering(m, seller, o.debtAsset, amount))
    + OnlyIf(m == CoreGap(o.borrower), CallDrift(o, pays, amount))
  }

  lemma MarginCallMoves(m: Measure, s: Books, k: CallKey, order: OrderId, isLimit: bool)
    requires Valid(s) && CanCall(s, k, order, isLimit) && MarginCalled(s, k, order, isLimit).Some?
    ensures Times(MarginAmount(s, k, order, isLimit), s.calls[k].debtAsset, OfferPrice(s, order, isLimit)).Some?
    ensures Total(m, MarginCalled(s, k, order, isLimit).value) == Total(m, s) + MarginTrade(m, s, k, order, isLimit)
  {
    hide Total, Times, FillCall, FillLimit, FillShort, CallDrift, Valid, FeeOf;
    var amount := MarginAmount(s, k, order, isLimit);
    var pays := Times(amount, s.calls[k].debtAsset, OfferPrice(s, order, isLimit)).value;
    var s1 := FillCall(s, k, pays, amount).value.0;
    FillCallMoves(m, s, k, pays, amount);
    FillCallFrame(s, k, pays, amount);
    FillCallValid(s, k, pays, amount);
    FeesStay(s, s1, s.calls[k].collateralAsset, pays);
    if isLimit {
      FillLimitMoves(m, s1, order, amount, pays);
    } else {
      ShortAgrees(s1, order);
      FillShortMoves(m, s1, order, amount, pays);
    }
  }

  lemma FillCallValid(s: Books, k: CallKey, pays: nat, receives: nat)
    requires Valid(s) && k in s.calls && receives <= s.calls[k].debt && FillCall(s, k, pays, receives).Some?
    ensures Valid(FillCall(s, k, pays, receives).value.0)
    ensures SameAssets(s, FillCall(s, k, pays, receives).value.0)
  {
    hide FillCall;
    FillCallFrame(s, k, pays, receives);
    ValidKept(s, FillCall(s, k, pays, receives).value.0);
  }

  // ----- a step -----

  /** By how much a step makes the running total of an account disagree with what it has in orders. */
  function Drift(s: Books, op: Op, u: AccountId): int {
    match op
    case Settle(k, id, p, max) =>
      if k !in s.calls || id !in s.settlements || s.settlements[id].asset != s.calls[k].debtAsset
         || SettledFor(SettledAmount(s, k, id, max), p).None? then 0
      else
        var amount := SettledAmount(s, k, id, max);
        OnlyIf(u == s.calls[k].borrower, CallDrift(s.calls[k], SettledFor(amount, p).value, amount))
    case MarginCall(k, order, isLimit) =>
      if !CanCall(s, k, order, isLimit) then 0
      else
        var amount := MarginAmount(s, k, order, isLimit);
        var pays := Times(amount, s.calls[k].debtAsset, OfferPrice(s, order, isLimit));
        if pays.None? then 0 else OnlyIf(u == s.calls[k].borrower, CallDrift(s.calls[k], pays.value, amount))
    case _ => 0
  }

  /** What a step adds to a measure: the payments between the accounts that take part. */
  function Change(m: Measure, s: Books, op: Op): int {
    match op
    case MatchLimitOrders(bid, ask, p) =>
      if CanMatchLimits(s, bid, ask, p) && LimitAmounts(s, bid, ask, p).Some? then LimitTrade(m, s, bid, ask, p) else 0
    case MatchShortOrder(bid, ask, p) =>
      if CanMatchShort(s, bid, ask, p) && ShortAmounts(s, bid, ask, p).Some? then ShortTrade(m, s, bid, ask, p) else 0
    case MarginCall(k, order, isLimit) =>
      if CanCall(s, k, order, isLimit)
         && Times(MarginAmount(s, k, order, isLimit), s.calls[k].debtAsset, OfferPrice(s, order, isLimit)).Some?
      then MarginTrade(m, s, k, order, isLimit) else 0
    case Settle(k, id, p, max) =>
      if k in s.calls && id in s.settlements && s.settlements[id].asset == s.calls[k].debtAsset
         && SettledFor(SettledAmount(s, k, id, max), p).Some?
      then SettlementTrade(m, s, k, id, p, max) else 0
    case Cover(k, debt, add, _) =>
      if k in s.calls
      then OwnCover(m, s.calls[k], debt) - Gain(m, s.calls[k].borrower, s.calls[k].collateralAsset, Withdrawn(add)) else 0
    case Close(k) => if k in s.calls then OwnCover(m, s.calls[k], s.calls[k].debt) else 0
    case _ => 0
  }

  /** Every step moves every measure by exactly that: who pays whom, and who owes what. */
  lemma StepMoves(m: Measure, s: Books, op: Op)
    requires Valid(s) && Step(s, op).Some?
    ensures Total(m, Step(s, op).value) == Total(m, s) + Change(m, s, op)
  {
    hide Total, PlacedLimit, CancelLimit, PlacedShort, CancelledShort, MatchLimits, MatchShort, MarginCalled,
         SettlementRequested, MatchSettlement, Covered, Closed, CallDrift, Valid, Times, SettledFor, SettledAmount,
         LimitTrade, ShortTrade, MarginTrade, SettlementTrade, OwnCover, LimitAmounts, ShortAmounts, MarginAmount;
    match op
    case PlaceLimit(id, o) => PlaceConserves(m, s, id, o);
    case CancelLimitOrder(id) => CancelLimitConserves(m, s, id);
    case PlaceShort(id, o) => PlaceShortConserves(m, s, id, o);
    case CancelShortOrder(id) => CancelShortConserves(m, s, id);
    case MatchLimitOrders(bid, ask, p) => MatchLimitsMoves(m, s, bid, ask, p);
    case MatchShortOrder(bid, ask, p) => ShortAgrees(s, ask); MatchShortMoves(m, s, bid, ask, p);
    case MarginCall(k, order, isLimit) => MarginCallMoves(m, s, k, order, isLimit);
    case RequestSettlement(id, r) => RequestConserves(m, s, id, r);
    case Settle(k, id, p, max) => MatchSettlementMoves(m, s, k, id, p, max);
    case Cover(k, debt, add, ratio) => CoverMoves(m, s, k, debt, add, ratio);
    case Close(k) => CloseMoves(m, s, k);
  }

  /** The collateral of an asset that a step takes out of a position and gives to no one. */
  function Forfeited(s: Books, op: Op, a: AssetId): nat {
    if op.Cover? && op.call in s.calls && s.calls[op.call].collateralAsset == a then Withdrawn(op.addCollateral) else 0
  }

  /** What a step adds to the measures that payments cancel out in. */
  function NetChange(m: Measure, s: Books, op: Op): int
    requires !m.Wealth? && !m.Owes?
  {
    match m
    case CoreGap(u) => Drift(s, op, u)
    case NetHoldings(a) => -(Forfeited(s, op, a) as int)
    case NetDebt(_) => 0
  }

  /** All payments cancel out, so only drifts and forfeits are left. */
  lemma ChangeIsNet(m: Measure, s: Books, op: Op)
    requires !m.Wealth? && !m.Owes?
    ensures Change(m, s, op) == NetChange(m, s, op)
  {
    hide LimitAmounts, ShortAmounts, SettledFor, SettledAmount, CanMatchLimits, CanMatchShort, CanCall,
         MarginAmount, Times,
         FeeOf, CallDrift;
  }

  /**
   Every step conserves holdings net of supply, less forfeits, and debt net of
   supply, and drifts by exactly `Drift`.
   */
  lemma StepConserves(m: Measure, s: Books, op: Op)
    requires Valid(s) && Step(s, op).Some? && !m.Wealth? && !m.Owes?
    ensures Total(m, Step(s, op).value) == Total(m, s) + NetChange(m, s, op)
  {
    hide Total, Step, Valid, Change, NetChange;
    StepMoves(m, s, op);
    ChangeIsNet(m, s, op);
  }

  lemma ShortAgrees(s: Books, id: OrderId)
    requires Valid(s) && id in s.shorts
    ensures Agrees(s, (s.shorts[id].seller, s.shorts[id].sellPrice.base.id), s.shorts[id].sellPrice.quote.id)
  {
  }
}

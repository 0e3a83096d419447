/**
 What holds over every run of the market's operations: positions stay in their backing asset,
 value and debt change only with supply, and the running totals of core in orders stay right.
 */
module TradingSafety {
  import opened Wrappers
  import opened Assets
  import opened Sums
  import opened Ledger
  import opened Fills
  import opened Matching
  import opened Trading

  // ----- every step keeps the invariant -----

  lemma OnlyAccountsChanged(s: Books, s': Books)
    requires Valid(s) && SameAssets(s, s') && s'.calls == s.calls
    requires forall id <- s'.shorts :: id in s.shorts && s'.shorts[id] == s.shorts[id]
    ensures Valid(s')
  {
  }

  lemma FillLimitValid(s: Books, id: OrderId, pays: nat, receives: nat)
    requires Valid(s) && id in s.limits && pays <= s.limits[id].forSale && FillLimit(s, id, pays, receives).Some?
    ensures Valid(FillLimit(s, id, pays, receives).value.0)
    ensures SameAssets(s, FillLimit(s, id, pays, receives).value.0)
  {
    hide FillLimit;
    FillLimitFrame(s, id, pays, receives);
    OnlyAccountsChanged(s, FillLimit(s, id, pays, receives).value.0);
  }

  lemma FillShortAssets(s: Books, id: OrderId, pays: nat, receives: nat)
    requires id in s.shorts && pays <= s.shorts[id].forSale && FillShort(s, id, pays, receives).Some?
    ensures SameAssets(s, FillShort(s, id, pays, receives).value.0)
  {
    hide ShortPaid, Times, ReduceShort;
    var collateral := ShortCollateral(s.shorts[id], pays).value;
    ShortPaidFrame(s, id, pays, receives, collateral);
    ReduceShortFrame(ShortPaid(s, id, pays, receives, collateral).value, id, pays, collateral);
  }

  lemma PlaceShortValid(s: Books, id: OrderId, o: ShortOrder)
    requires Valid(s) && PlacedShort(s, id, o).Some?
    ensures Valid(PlacedShort(s, id, o).value) && SameAssets(s, PlacedShort(s, id, o).value)
  {
  }

  lemma PlaceValid(s: Books, id: OrderId, o: LimitOrder)
    requires Valid(s) && PlacedLimit(s, id, o).Some?
    ensures Valid(PlacedLimit(s, id, o).value) && SameAssets(s, PlacedLimit(s, id, o).value)
  {
  }

  lemma CancelShortValid(s: Books, id: OrderId)
    requires Valid(s) && id in s.shorts && CancelledShort(s, id).Some?
    ensures Valid(CancelledShort(s, id).value) && SameAssets(s, CancelledShort(s, id).value)
  {
    hide ReturnCollateral;
    CollateralReturnedFrame(s, s.shorts[id]);
    OnlyAccountsChanged(s, CancelledShort(s, id).value);
  }

  lemma MatchLimitsValid(s: Books, bid: OrderId, ask: OrderId, p: MarketPrice)
    requires Valid(s) && CanMatchLimits(s, bid, ask, p) && MatchLimits(s, bid, ask, p).Some?
    ensures Valid(MatchLimits(s, bid, ask, p).value.0) && SameAssets(s, MatchLimits(s, bid, ask, p).value.0)
  {
    hide Valid, FillLimit, LimitAmounts;
    var (bidPays, askPays) := LimitAmounts(s, bid, ask, p).value;
    FillLimitFrame(s, bid, bidPays, askPays);
    FillLimitValid(s, bid, bidPays, askPays);
    FillLimitValid(FillLimit(s, bid, bidPays, askPays).value.0, ask, askPays, bidPays);
  }

  lemma MatchShortValid(s: Books, bid: OrderId, ask: OrderId, p: MarketPrice)
    requires Valid(s) && CanMatchShort(s, bid, ask, p) && MatchShort(s, bid, ask, p).Some?
    ensures Valid(MatchShort(s, bid, ask, p).value.0) && SameAssets(s, MatchShort(s, bid, ask, p).value.0)
  {
    hide Valid, FillLimit, FillShort, ShortAmounts;
    var (bidPays, askPays) := ShortAmounts(s, bid, ask, p).value;
    FillLimitFrame(s, bid, bidPays, askPays);
    FillLimitValid(s, bid, bidPays, askPays);
    var s1 := FillLimit(s, bid, bidPays, askPays).value.0;
    FillShortValid(s1, ask, askPays, bidPays);
    FillShortAssets(s1, ask, askPays, bidPays);
  }

  lemma MarginCallValid(s: Books, k: CallKey, order: OrderId, isLimit: bool)
    requires Valid(s) && CanCall(s, k, order, isLimit) && MarginCalled(s, k, order, isLimit).Some?
    ensures Valid(MarginCalled(s, k, order, isLimit).value) && SameAssets(s, MarginCalled(s, k, order, isLimit).value)
  {
    hide Valid, Times, FillCall, FillLimit, FillShort;
    var amount := MarginAmount(s, k, order, isLimit);
    var pays := Times(amount, s.calls[k].debtAsset, OfferPrice(s, order, isLimit)).value;
    var s1 := FillCall(s, k, pays, amount).value.0;
    FillCallFrame(s, k, pays, amount);
    FillCallValid(s, k, pays, amount);
    if isLimit {
      FillLimitValid(s1, order, amount, pays);
    } else {
      FillShortValid(s1, order, amount, pays);
      FillShortAssets(s1, order, amount, pays);
    }
  }

  lemma SettleValid(s: Books, k: CallKey, id: OrderId, p: SettlementPrice, max: nat)
    requires Valid(s) && k in s.calls && id in s.settlements && s.settlements[id].asset == s.calls[k].debtAsset
    requires MatchSettlement(s, k, id, p, max).Some?
    ensures Valid(MatchSettlement(s, k, id, p, max).value.0)
    ensures SameAssets(s, MatchSettlement(s, k, id, p, max).value.0)
  {
    hide FillCall, FillSettlement, SettledFor;
    var amount := SettledAmount(s, k, id, max);
    var pays := SettledFor(amount, p).value;
    FillCallFrame(s, k, pays, amount);
    FillCallValid(s, k, pays, amount);
    var s1 := FillCall(s, k, pays, amount).value.0;
    FillSettlementFrame(s1, id, amount, s.calls[k].collateralAsset, pays);
    OnlyAccountsChanged(s1, MatchSettlement(s, k, id, p, max).value.0);
  }

  lemma CollateralFrame(s: Books, u: AccountId, a: AssetId, amount: int)
    requires Collateralized(s, u, a, amount).Some?
    ensures var s' := Collateralized(s, u, a, amount).value;
            s' == s.(balances := s'.balances, coreInOrders := s'.coreInOrders)
  {
    hide Offer, AddCore;
    if amount > 0 { OfferFrame(s, u, a, amount); }
  }

  lemma CoverValid(s: Books, k: CallKey, debt: nat, addCollateral: int, ratio: Option<Ratio>)
    requires Valid(s) && k in s.calls && s.calls[k].debtAsset in s.assets && debt < s.calls[k].debt
    requires Covered(s, k, debt, addCollateral, ratio).Some?
    ensures Valid(Covered(s, k, debt, addCollateral, ratio).value)
    ensures SameAssets(s, Covered(s, k, debt, addCollateral, ratio).value)
  {
    hide Collateralized, PaidDebt, CallPrice;
    var o := s.calls[k];
    var o' := o.(debt := o.debt - debt, collateral := o.collateral + addCollateral,
                 maintenanceRatio := if ratio.Some? then ratio.value else o.maintenanceRatio);
    var price := CallPrice(o'.debt, o'.debtAsset, o'.collateral, o'.collateralAsset, o'.maintenanceRatio).value;
    var s1 := PaidDebt(s, o.borrower, o.debtAsset, debt).value;
    DebtPaidFrame(s, o.borrower, o.debtAsset, debt);
    CollateralFrame(PutCall(s1, k, o'.(callPrice := price)), o.borrower, o.collateralAsset, addCollateral);
    ValidKept(s, Covered(s, k, debt, addCollateral, ratio).value);
  }

  lemma CloseValid(s: Books, k: CallKey)
    requires Valid(s) && k in s.calls && s.calls[k].debtAsset in s.assets && Closed(s, k).Some?
    ensures Valid(Closed(s, k).value) && SameAssets(s, Closed(s, k).value)
  {
    hide Refund, PaidDebt;
    DebtPaidFrame(s, s.calls[k].borrower, s.calls[k].debtAsset, s.calls[k].debt);
    ValidKept(s, Closed(s, k).value);
  }

  lemma RequestValid(s: Books, id: OrderId, r: Settlement)
    requires Valid(s) && SettlementRequested(s, id, r).Some?
    ensures Valid(SettlementRequested(s, id, r).value) && SameAssets(s, SettlementRequested(s, id, r).value)
  {
  }

  lemma StepKeepsValid(s: Books, op: Op)
    requires Valid(s) && Step(s, op).Some?
    ensures Valid(Step(s, op).value) && SameAssets(s, Step(s, op).value)
  {
    hide PlacedLimit, CancelLimit, PlacedShort, CancelledShort, MatchLimits, MatchShort, MarginCalled,
         SettlementRequested, MatchSettlement, Covered, Closed, Valid;
    match op
    case PlaceLimit(id, o) => PlaceValid(s, id, o);
    case CancelLimitOrder(id) => CancelLimitFrame(s, id); OnlyAccountsChanged(s, CancelLimit(s, id));
    case PlaceShort(id, o) => PlaceShortValid(s, id, o);
    case CancelShortOrder(id) => CancelShortValid(s, id);
    case MatchLimitOrders(bid, ask, p) => MatchLimitsValid(s, bid, ask, p);
    case MatchShortOrder(bid, ask, p) => MatchShortValid(s, bid, ask, p);
    case MarginCall(k, order, isLimit) => MarginCallValid(s, k, order, isLimit);
    case RequestSettlement(id, r) => RequestValid(s, id, r);
    case Settle(k, id, p, max) => SettleValid(s, k, id, p, max);
    case Cover(k, debt, add, ratio) => CoverValid(s, k, debt, add, ratio);
    case Close(k) => CloseValid(s, k);
  }

  // ----- runs -----

  /** An operation that throws is undone. */
  function Apply(s: Books, op: Op): Books {
    if Step(s, op).Some? then Step(s, op).value else s
  }

  function Run(s: Books, ops: seq<Op>): Books
    decreases |ops|
  {
    if ops == [] then s else Run(Apply(s, ops[0]), ops[1..])
  }

  /** Everything that accounts, orders, positions, settlements and fee accumulators hold of an asset. */
  ghost function Held(s: Books, a: AssetId): int {
    Sum(s.balances, BalanceFn(NetHoldings(a))) + Sum(s.limits, LimitFn(NetHoldings(a))) +
    Sum(s.shorts, ShortFn(NetHoldings(a))) + Sum(s.calls, CallFn(NetHoldings(a))) +
    Sum(s.settlements, SettlementFn(NetHoldings(a))) + FeesOf(s, a)
  }

  ghost function Owed(s: Books, a: AssetId): int {
    Sum(s.calls, CallFn(NetDebt(a)))
  }

  ghost function InOrders(s: Books, u: AccountId): int {
    Sum(s.limits, LimitFn(CoreGap(u))) + Sum(s.shorts, ShortFn(CoreGap(u))) + Sum(s.calls, CallFn(CoreGap(u)))
  }

  function FeesOf(s: Books, a: AssetId): int {
    if a in s.assets then s.assets[a].fees else 0
  }

  function SupplyOf(s: Books, a: AssetId): int {
    if a in s.assets then s.assets[a].supply else 0
  }

  lemma HoldingsAreTotal(s: Books, a: AssetId)
    ensures Total(NetHoldings(a), s) == Held(s, a) - SupplyOf(s, a)
  {
    SumSingle(s.assets, AssetFn(NetHoldings(a)), a);
    SumZero(s.coreInOrders, CoreFn(NetHoldings(a)));
  }

  lemma DebtIsTotal(s: Books, a: AssetId)
    ensures Total(NetDebt(a), s) == Owed(s, a) - SupplyOf(s, a)
  {
    SumZero<(AccountId, AssetId), nat>(s.balances, BalanceFn(NetDebt(a)));
    SumZero(s.limits, LimitFn(NetDebt(a)));
    SumZero(s.shorts, ShortFn(NetDebt(a)));
    SumZero(s.settlements, SettlementFn(NetDebt(a)));
    SumSingle(s.assets, AssetFn(NetDebt(a)), a);
    SumZero(s.coreInOrders, CoreFn(NetDebt(a)));
  }

  lemma GapIsTotal(s: Books, u: AccountId)
    ensures Total(CoreGap(u), s) == InOrders(s, u) - CoreOf(s, u)
  {
    SumZero<(AccountId, AssetId), nat>(s.balances, BalanceFn(CoreGap(u)));
    SumZero(s.settlements, SettlementFn(CoreGap(u)));
    SumZero(s.assets, AssetFn(CoreGap(u)));
    SumSingle(s.coreInOrders, CoreFn(CoreGap(u)), u);
  }

  /** The collateral of an asset that updates of positions take out of the books on the way. */
  ghost function ForfeitedIn(s: Books, ops: seq<Op>, a: AssetId): nat
    decreases |ops|
  {
    if ops == [] then 0
    else (if Step(s, ops[0]).Some? then Forfeited(s, ops[0], a) else 0) + ForfeitedIn(Apply(s, ops[0]), ops[1..], a)
  }

  lemma {:induction false} RunKeepsTotal(m: Measure, s: Books, ops: seq<Op>)
    requires Valid(s) && IsNet(m)
    ensures Valid(Run(s, ops))
    ensures Total(m, Run(s, ops)) == Total(m, s) - if m.NetHoldings? then ForfeitedIn(s, ops, m.asset) else 0
    decreases |ops|
  {
    hide Valid, Total, Step, Forfeited;
    if ops == [] {
    } else {
      if Step(s, ops[0]).Some? {
        StepConserves(m, s, ops[0]);
        StepKeepsValid(s, ops[0]);
      }
      RunKeepsTotal(m, Apply(s, ops[0]), ops[1..]);
    }
  }

  /**
   What is held of an asset, but for forfeits, and what positions owe of it, change
   only by the change in its supply.
   */
  lemma {:induction false} ValueIsConserved(s: Books, ops: seq<Op>, a: AssetId)
    requires Valid(s)
    ensures var s' := Run(s, ops);
            && Held(s', a) - Held(s, a) == SupplyOf(s', a) - SupplyOf(s, a) - ForfeitedIn(s, ops, a)
            && Owed(s', a) - Owed(s, a) == SupplyOf(s', a) - SupplyOf(s, a)
  {
    hide Valid, Total, Held, Owed, SupplyOf, ForfeitedIn;
    RunKeepsTotal(NetHoldings(a), s, ops);
    RunKeepsTotal(NetDebt(a), s, ops);
    HoldingsAreTotal(s, a);
    HoldingsAreTotal(Run(s, ops), a);
    DebtIsTotal(s, a);
    DebtIsTotal(Run(s, ops), a);
  }

  /** Some step of the run takes collateral of the asset out of a position. */
  ghost predicate TakesCollateralOut(s: Books, ops: seq<Op>, a: AssetId)
    decreases |ops|
  {
    ops != [] &&
    ((Step(s, ops[0]).Some? && ops[0].Cover? && ops[0].addCollateral < 0 && s.calls[ops[0].call].collateralAsset == a)
     || TakesCollateralOut(Apply(s, ops[0]), ops[1..], a))
  }

  lemma {:induction false} ForfeitsAreWithdrawals(s: Books, ops: seq<Op>, a: AssetId)
    ensures ForfeitedIn(s, ops, a) > 0 <==> TakesCollateralOut(s, ops, a)
    decreases |ops|
  {
    if ops == [] {
    } else {
      ForfeitsAreWithdrawals(Apply(s, ops[0]), ops[1..], a);
    }
  }

  /** So value is conserved over a run exactly when no update of a position takes collateral out of it. */
  lemma {:induction false} ValueIsLost(s: Books, ops: seq<Op>, a: AssetId)
    requires Valid(s)
    ensures var s' := Run(s, ops);
            Held(s', a) - Held(s, a) == SupplyOf(s', a) - SupplyOf(s, a) <==> !TakesCollateralOut(s, ops, a)
  {
    hide Valid, Held, SupplyOf, ForfeitedIn, Run, TakesCollateralOut;
    ValueIsConserved(s, ops, a);
    ForfeitsAreWithdrawals(s, ops, a);
  }

  /** One position of ten units of asset 1 on a hundred of core, and one unit in its owner's balance. */
  function WellCollateralized(): Books {
    var feed := Price(Asset(1, 1), Asset(1, CORE));
    Books(map[(7, 1) := 1], map[], map[], map[(7, 1) := CallOrder(7, 10, 1, 100, CORE, feed, 1750)], map[],
          map[CORE := AssetData(1000, 0, false, 0, 0, 0, None),
              1 := AssetData(10, 0, false, 0, 0, 0, Some(BitAsset(CORE, Some(feed), None, 0, HUNDRED_PERCENT, 0)))],
          map[7 := 100])
  }

  lemma CoverGoesThrough()
    ensures var s := WellCollateralized();
            && Step(s, Cover((7, 1), 1, -3, None)).Some? && Valid(s)
            && SupplyOf(Step(s, Cover((7, 1), 1, -3, None)).value, CORE) == SupplyOf(s, CORE)
  {
  }

  /** The evaluator lets one unit be covered and three of core be taken out at once; no one gets the three. */
  lemma CollateralVanishes()
    ensures var (s, op) := (WellCollateralized(), Cover((7, 1), 1, -3, None));
            && Valid(s) && Step(s, op).Some?
            // the position would not be called at once, which is what the evaluator checks
            && CallPrice(9, 1, 97, CORE, 1750) == Some(Price(Asset(72, CORE), Asset(9, 1)))
            && Times(9, 1, Price(Asset(72, CORE), Asset(9, 1))) == Some(72) && 72 < s.calls[(7, 1)].collateral
            && Held(Step(s, op).value, CORE) == Held(s, CORE) - 3
            && SupplyOf(Step(s, op).value, CORE) == SupplyOf(s, CORE)
  {
    hide Step, Held, SupplyOf, Total, Valid;
    var (s, op) := (WellCollateralized(), Cover((7, 1), 1, -3, None));
    CoverGoesThrough();
    StepConserves(NetHoldings(CORE), s, op);
    HoldingsAreTotal(s, CORE);
    HoldingsAreTotal(Step(s, op).value, CORE);
  }

  // ----- who pays whom -----

  /** What an account has of an asset: its balance, and what its orders, position and settlements hold. */
  ghost function WealthOf(s: Books, u: AccountId, a: AssetId): int {
    BalanceOf(s, u, a) + Sum(s.limits, LimitFn(Wealth(u, a))) + Sum(s.shorts, ShortFn(Wealth(u, a))) +
    Sum(s.calls, CallFn(Wealth(u, a))) + Sum(s.settlements, SettlementFn(Wealth(u, a)))
  }

  function DebtOf(s: Books, u: AccountId, a: AssetId): nat {
    if (u, a) in s.calls then s.calls[(u, a)].debt else 0
  }

  lemma WealthIsTotal(s: Books, u: AccountId, a: AssetId)
    ensures Total(Wealth(u, a), s) == WealthOf(s, u, a)
  {
    var m := Wealth(u, a);
    SumSingle<(AccountId, AssetId), nat>(s.balances, BalanceFn(m), (u, a));
    SumZero(s.assets, AssetFn(m));
    SumZero(s.coreInOrders, CoreFn(m));
  }

  lemma OwesIsTotal(s: Books, u: AccountId, a: AssetId)
    requires Valid(s)
    ensures Total(Owes(u, a), s) == DebtOf(s, u, a)
  {
    var m := Owes(u, a);
    SumZero<(AccountId, AssetId), nat>(s.balances, BalanceFn(m));
    SumZero(s.limits, LimitFn(m));
    SumZero(s.shorts, ShortFn(m));
    SumZero(s.settlements, SettlementFn(m));
    SumZero(s.assets, AssetFn(m));
    SumZero(s.coreInOrders, CoreFn(m));
    SumSingle<(AccountId, AssetId), CallOrder>(s.calls, CallFn(m), (u, a));
  }

  /** Every step changes what an account has, and what it owes, by exactly the payments it takes part in. */
  lemma AccountsChange(s: Books, op: Op, u: AccountId, a: AssetId)
    requires Valid(s) && Step(s, op).Some?
    ensures var s' := Step(s, op).value;
            && WealthOf(s', u, a) == WealthOf(s, u, a) + Change(Wealth(u, a), s, op)
            && DebtOf(s', u, a) == DebtOf(s, u, a) + Change(Owes(u, a), s, op)
  {
    hide Valid, Step, Total, Change, WealthOf, DebtOf;
    var s' := Step(s, op).value;
    StepMoves(Wealth(u, a), s, op);
    StepMoves(Owes(u, a), s, op);
    StepKeepsValid(s, op);
    WealthIsTotal(s, u, a);
    WealthIsTotal(s', u, a);
    OwesIsTotal(s, u, a);
    OwesIsTotal(s', u, a);
  }

  /** In a match of two limit orders each seller pays what the amounts say, and gets what the other pays, less the fee. */
  lemma MatchPaysBoth(s: Books, bid: OrderId, ask: OrderId, p: MarketPrice)
    requires Valid(s) && Step(s, MatchLimitOrders(bid, ask, p)).Some?
    requires CanMatchLimits(s, bid, ask, p) && LimitAmounts(s, bid, ask, p).Some?
    requires s.limits[bid].seller != s.limits[ask].seller
    ensures var s' := Step(s, MatchLimitOrders(bid, ask, p)).value;
            var (u, v) := (s.limits[bid].seller, s.limits[ask].seller);
            var (x, y) := (s.limits[bid].sellPrice.base.id, s.limits[ask].sellPrice.base.id);
            var (bidPays, askPays) := LimitAmounts(s, bid, ask, p).value;
            && WealthOf(s', u, x) == WealthOf(s, u, x) - bidPays
            && WealthOf(s', v, x) == WealthOf(s, v, x) + bidPays - FeeOf(s, x, bidPays)
            && WealthOf(s', v, y) == WealthOf(s, v, y) - askPays
            && WealthOf(s', u, y) == WealthOf(s, u, y) + askPays - FeeOf(s, y, askPays)
  {
    hide Valid, Step, WealthOf, DebtOf, FeeOf, LimitAmounts;
    var op := MatchLimitOrders(bid, ask, p);
    var (u, v) := (s.limits[bid].seller, s.limits[ask].seller);
    var (x, y) := (s.limits[bid].sellPrice.base.id, s.limits[ask].sellPrice.base.id);
    AccountsChange(s, op, u, x);
    AccountsChange(s, op, v, x);
    AccountsChange(s, op, v, y);
    AccountsChange(s, op, u, y);
  }

  /** The accounts that an operation is about. */
  function Parties(s: Books, op: Op): set<AccountId> {
    match op
    case MatchLimitOrders(bid, ask, _) => Seller(s, bid, true) + Seller(s, ask, true)
    case MatchShortOrder(bid, ask, _) => Seller(s, bid, true) + Seller(s, ask, false)
    case MarginCall(k, order, isLimit) => Borrower(s, k) + Seller(s, order, isLimit)
    case Settle(k, id, _, _) => Borrower(s, k) + if id in s.settlements then {s.settlements[id].owner} else {}
    case Cover(k, _, _, _) => Borrower(s, k)
    case Close(k) => Borrower(s, k)
    case _ => {}
  }

  function Seller(s: Books, id: OrderId, isLimit: bool): set<AccountId> {
    if isLimit then if id in s.limits then {s.limits[id].seller} else {}
    else if id in s.shorts then {s.shorts[id].seller} else {}
  }

  function Borrower(s: Books, k: CallKey): set<AccountId> {
    if k in s.calls then {s.calls[k].borrower} else {}
  }

  /**
   No one else has or owes more or less afterwards; placing, cancelling and
   requesting change no one's wealth at all.
   */
  lemma BystandersKeepAll(s: Books, op: Op, u: AccountId, a: AssetId)
    requires Valid(s) && Step(s, op).Some? && u !in Parties(s, op)
    ensures WealthOf(Step(s, op).value, u, a) == WealthOf(s, u, a) && DebtOf(Step(s, op).value, u, a) == DebtOf(s, u, a)
  {
    hide Valid, Step, WealthOf, DebtOf, Change, Parties;
    AccountsChange(s, op, u, a);
    NoChangeForOthers(s, op, u, a);
  }

  lemma NoChangeForOthers(s: Books, op: Op, u: AccountId, a: AssetId)
    requires u !in Parties(s, op)
    ensures Change(Wealth(u, a), s, op) == 0 && Change(Owes(u, a), s, op) == 0
  {
    hide LimitAmounts, ShortAmounts, SettledFor, SettledAmount, MarginAmount, Times, FeeOf, CallDrift;
  }

  // ----- running totals of core in orders -----

  ghost predicate CoreBacked(s: Books) {
    forall a <- s.assets :: s.assets[a].bit.Some? ==> s.assets[a].bit.value.backing == CORE
  }

  /** A settlement that covers the whole debt for more collateral than there is; the code asserts against it. */
  predicate Overdraws(s: Books, op: Op) {
    && op.Settle? && op.call in s.calls && op.id in s.settlements && s.settlements[op.id].asset == s.calls[op.call].debtAsset
    && SettledAmount(s, op.call, op.id, op.max) == s.calls[op.call].debt
    && SettledFor(s.calls[op.call].debt, op.at).Some?
    && SettledFor(s.calls[op.call].debt, op.at).value > s.calls[op.call].collateral
  }

  lemma CallIsInBacking(s: Books, k: CallKey)
    requires Valid(s) && CoreBacked(s) && k in s.calls
    ensures s.calls[k].collateralAsset == CORE && s.calls[k].borrower == k.0
  {
  }

  lemma MarginCallNeverDrifts(s: Books, k: CallKey, order: OrderId, isLimit: bool, u: AccountId)
    requires CanCall(s, k, order, isLimit) && MarginCalled(s, k, order, isLimit).Some?
    requires s.calls[k].collateralAsset == CORE
    ensures Drift(s, MarginCall(k, order, isLimit), u) == 0
  {
  }

  /** With core as the only backing asset, a step leaves the running totals right exactly when it does not overdraw. */
  lemma DriftIsOverdraft(s: Books, op: Op, u: AccountId)
    requires Valid(s) && CoreBacked(s) && Step(s, op).Some?
    ensures Drift(s, op, u) >= 0
    ensures Drift(s, op, u) == 0 <==> !(Overdraws(s, op) && u == op.call.0)
  {
    hide Step, Valid, CoreBacked, MarginCalled, MatchSettlement, SettledFor, SettledAmount, Times;
    match op
    case Settle(k, id, p, max) =>
      if k in s.calls { CallIsInBacking(s, k); }
    case MarginCall(k, order, isLimit) =>
      assert CanCall(s, k, order, isLimit) && MarginCalled(s, k, order, isLimit).Some? by { StepIsMarginCall(s, op); }
      CallIsInBacking(s, k);
      MarginCallNeverDrifts(s, k, order, isLimit, u);
    case _ =>
  }

  lemma StepIsMarginCall(s: Books, op: Op)
    requires op.MarginCall? && Step(s, op).Some?
    ensures CanCall(s, op.call, op.order, op.isLimit) && MarginCalled(s, op.call, op.order, op.isLimit).Some?
  {
  }

  lemma CoreBackedKept(s: Books, op: Op)
    requires Valid(s) && CoreBacked(s)
    ensures Valid(Apply(s, op)) && CoreBacked(Apply(s, op))
  {
    hide Valid, Step;
    if Step(s, op).Some? { StepKeepsValid(s, op); }
  }

  /** Some settlement of the run overdraws the position of this account. */
  ghost predicate IsOverdrawn(s: Books, ops: seq<Op>, u: AccountId)
    decreases |ops|
  {
    ops != [] &&
    ((Step(s, ops[0]).Some? && Overdraws(s, ops[0]) && u == ops[0].call.0) || IsOverdrawn(Apply(s, ops[0]), ops[1..], u))
  }

  /**
   The running total of an account never gets above what the account has in orders and positions by any step;
   it falls behind at overdrafts only.
   */
  lemma {:induction false} RunFallsBehind(s: Books, ops: seq<Op>, u: AccountId)
    requires Valid(s) && CoreBacked(s)
    ensures var s' := Run(s, ops);
            var (gap, gap') := (InOrders(s, u) - CoreOf(s, u), InOrders(s', u) - CoreOf(s', u));
            gap' >= gap && (gap' == gap <==> !IsOverdrawn(s, ops, u))
    decreases |ops|
  {
    hide Valid, CoreBacked, Step, Total, Drift, Overdraws, InOrders, CoreOf;
    if ops == [] {
    } else {
      var s' := Apply(s, ops[0]);
      if Step(s, ops[0]).Some? {
        StepConserves(CoreGap(u), s, ops[0]);
        DriftIsOverdraft(s, ops[0], u);
        GapIsTotal(s, u);
        GapIsTotal(s', u);
      }
      CoreBackedKept(s, ops[0]);
      RunFallsBehind(s', ops[1..], u);
    }
  }

  /**
   Over every run the running total of an account stays what it has in limit orders, short orders and positions
   exactly when no settlement of the run overdraws its position.
   */
  lemma {:induction false} RunningTotalsAgree(s: Books, ops: seq<Op>, u: AccountId)
    requires Valid(s) && CoreBacked(s) && CoreOf(s, u) == InOrders(s, u)
    ensures CoreOf(Run(s, ops), u) == InOrders(Run(s, ops), u) <==> !IsOverdrawn(s, ops, u)
  {
    hide Valid, CoreBacked, InOrders, CoreOf, Run, IsOverdrawn;
    RunFallsBehind(s, ops, u);
  }

  /** One step breaks a running total that was right exactly when it overdraws a position of that account. */
  lemma RunningTotalBreaks(s: Books, op: Op, u: AccountId)
    requires Valid(s) && CoreBacked(s) && Step(s, op).Some?
    requires CoreOf(s, u) == InOrders(s, u)
    ensures CoreOf(Step(s, op).value, u) == InOrders(Step(s, op).value, u) <==> !(Overdraws(s, op) && u == op.call.0)
  {
    hide Valid, CoreBacked, Step, Total, Drift, Overdraws, InOrders, CoreOf;
    StepConserves(CoreGap(u), s, op);
    DriftIsOverdraft(s, op, u);
    GapIsTotal(s, u);
    GapIsTotal(Step(s, op).value, u);
  }
}

/**
 The market's books: who holds what, in balances, orders, collateral, settlements and fees.
 The measures at the end weigh the books; the results of `Fills` and `Trading` say that
 every operation leaves their sums alone.
 */
module Ledger {
  import opened Wrappers
  import opened Assets
  import opened Sums

  type AccountId = nat
  type OrderId = nat

  /** A collateral ratio, as a fixed-point number with three decimals. */
  type Ratio = r: int | 1000 <= r < 0x1_0000 witness 1750

  datatype LimitOrder = LimitOrder(seller: AccountId, forSale: nat, sellPrice: MarketPrice)

  datatype ShortOrder = ShortOrder(
    seller: AccountId, forSale: nat, availableCollateral: int, sellPrice: MarketPrice, maintenanceRatio: Ratio)

  /** `callPrice` is recomputed when a position grows or is changed by its owner, not when it is filled. */
  datatype CallOrder = CallOrder(
    borrower: AccountId, debt: nat, debtAsset: AssetId, collateral: int, collateralAsset: AssetId,
    callPrice: Price, maintenanceRatio: Ratio)

  /** `price::call_price`: the conversion of a negative amount wraps around 64 bits. */
  function CallPrice(debt: nat, debtAsset: AssetId, collateral: int, collateralAsset: AssetId,
                     ratio: Ratio): Option<Price> {
    var amount := collateral % 0x1_0000_0000_0000_0000 * (ratio - 1000) / 1000;
    if amount > MAX_SHARE_SUPPLY || collateralAsset == debtAsset then None
    else Some(Price(Asset(amount, collateralAsset), Asset(debt, debtAsset)))
  }

  /**
   The call price asks for the collateral less what the ratio keeps back: of every thousand units the ratio
   less a thousand, rounded down.
   */
  lemma CallPriceRoundsDown(debt: nat, debtAsset: AssetId, collateral: nat, collateralAsset: AssetId, ratio: Ratio)
    requires collateral <= MAX_SHARE_SUPPLY
    ensures var p := CallPrice(debt, debtAsset, collateral, collateralAsset, ratio);
            && (p.Some? <==> collateralAsset != debtAsset && collateral * (ratio - 1000) < (MAX_SHARE_SUPPLY + 1) * 1000)
            && (p.Some? ==>
                  && p.value.quote == Asset(debt, debtAsset) && p.value.base.id == collateralAsset
                  && p.value.base.amount * 1000 <= collateral * (ratio - 1000) < p.value.base.amount * 1000 + 1000)
  {
    ProductIsNat(collateral, 1);
  }

  datatype Settlement = Settlement(owner: AccountId, balance: nat, asset: AssetId, date: nat)

  datatype BitAsset = BitAsset(
    backing: AssetId, settlementPrice: Option<MarketPrice>, callLimit: Option<MarketPrice>,
    offsetPercent: nat, maxVolumePercent: nat, forceSettled: nat)

  datatype AssetData = AssetData(
    supply: int, fees: int, chargesFees: bool, feePercent: nat, minFee: nat, maxFee: nat, bit: Option<BitAsset>)

  /** Call orders are unique per borrower and debt asset, so this pair is their key. */
  datatype Books = Books(
    balances: map<(AccountId, AssetId), nat>,
    limits: map<OrderId, LimitOrder>,
    shorts: map<OrderId, ShortOrder>,
    calls: map<(AccountId, AssetId), CallOrder>,
    settlements: map<OrderId, Settlement>,
    assets: map<AssetId, AssetData>,
    coreInOrders: map<AccountId, int>)

  /** The asset that backs a market-issued asset. */
  function Backing(s: Books, a: AssetId): Option<AssetId> {
    if a in s.assets && s.assets[a].bit.Some? then Some(s.assets[a].bit.value.backing) else None
  }

  /** Positions and short orders are in the backing asset of what they owe or sell. */
  ghost predicate Valid(s: Books) {
    && (forall k <- s.calls ::
          && s.calls[k].borrower == k.0 && s.calls[k].debtAsset == k.1
          && Backing(s, k.1) == Some(s.calls[k].collateralAsset))
    && (forall id <- s.shorts :: Backing(s, s.shorts[id].sellPrice.base.id) == Some(s.shorts[id].sellPrice.quote.id))
  }

  /** Nothing about the assets changed but their supply and fees. */
  ghost predicate SameAssets(s: Books, s': Books) {
    && s'.assets.Keys == s.assets.Keys
    && forall a <- s.assets :: s'.assets[a] == s.assets[a].(supply := s'.assets[a].supply, fees := s'.assets[a].fees)
  }

  lemma AssetsStay(s: Books)
    ensures SameAssets(s, s)
  {
  }

  lemma SameAssetsTwice(s: Books, s1: Books, s2: Books)
    requires SameAssets(s, s1) && SameAssets(s1, s2)
    ensures SameAssets(s, s2)
  {
  }

  lemma ValidKept(s: Books, s': Books)
    requires Valid(s) && SameAssets(s, s')
    requires forall k <- s'.calls ::
               && k in s.calls && s'.calls[k].borrower == s.calls[k].borrower
               && s'.calls[k].debtAsset == s.calls[k].debtAsset && s'.calls[k].collateralAsset == s.calls[k].collateralAsset
    requires forall id <- s'.shorts :: id in s.shorts && s'.shorts[id].sellPrice == s.shorts[id].sellPrice
    ensures Valid(s')
  {
  }

  // ----- measures: one weight per entry of each book -----

  datatype Measure =
    | NetHoldings(asset: AssetId) // everything held of an asset, less its supply
    | NetDebt(asset: AssetId)     // what positions owe of an asset, less its supply
    | CoreGap(account: AccountId) // core that an account has in orders, less its running total
    | Wealth(account: AccountId, asset: AssetId) // what an account has of an asset, in all books
    | Owes(account: AccountId, asset: AssetId)   // what the position of an account owes of an asset

  /** The measures that no operation changes. */
  predicate IsNet(m: Measure) {
    m.NetHoldings? || m.NetDebt?
  }

  /** What more of an asset for an account adds to a measure, and what more debt does. */
  function Gain(m: Measure, u: AccountId, a: AssetId, n: int): int {
    OnlyIf(m == NetHoldings(a) || m == Wealth(u, a), n)
  }

  function Debt(m: Measure, u: AccountId, a: AssetId, n: int): int {
    OnlyIf(m == NetDebt(a) || m == Owes(u, a), n)
  }

  function OnlyIf(c: bool, n: int): int {
    if c then n else 0
  }

  /** What core in an order of an account adds to a measure. */
  function InOrder(m: Measure, u: AccountId, a: AssetId, n: int): int {
    OnlyIf(m == CoreGap(u) && a == CORE, n)
  }

  function BalanceWeight(m: Measure, k: (AccountId, AssetId), v: nat): int {
    Gain(m, k.0, k.1, v)
  }

  function LimitWeight(m: Measure, o: LimitOrder): int {
    Gain(m, o.seller, o.sellPrice.base.id, o.forSale) + InOrder(m, o.seller, o.sellPrice.base.id, o.forSale)
  }

  function ShortWeight(m: Measure, o: ShortOrder): int {
    Gain(m, o.seller, o.sellPrice.quote.id, o.availableCollateral)
    + InOrder(m, o.seller, o.sellPrice.quote.id, o.availableCollateral)
  }

  function CallWeight(m: Measure, o: CallOrder): int {
    Gain(m, o.borrower, o.collateralAsset, o.collateral) + InOrder(m, o.borrower, o.collateralAsset, o.collateral)
    + Debt(m, o.borrower, o.debtAsset, o.debt)
  }

  function SettlementWeight(m: Measure, s: Settlement): int {
    Gain(m, s.owner, s.asset, s.balance)
  }

  function AssetWeight(m: Measure, id: AssetId, d: AssetData): int {
    match m
    case NetHoldings(a) => OnlyIf(id == a, d.fees - d.supply)
    case NetDebt(a) => OnlyIf(id == a, -d.supply)
    case _ => 0
  }

  function CoreWeight(m: Measure, u: AccountId, total: int): int {
    match m
    case CoreGap(v) => OnlyIf(u == v, -total)
    case _ => 0
  }

  function BalanceFn(m: Measure): ((AccountId, AssetId), nat) -> int {
    (k: (AccountId, AssetId), v: nat) => BalanceWeight(m, k, v)
  }

  function LimitFn(m: Measure): (OrderId, LimitOrder) -> int {
    (_, o: LimitOrder) => LimitWeight(m, o)
  }

  function ShortFn(m: Measure): (OrderId, ShortOrder) -> int {
    (_, o: ShortOrder) => ShortWeight(m, o)
  }

  function CallFn(m: Measure): ((AccountId, AssetId), CallOrder) -> int {
    (_, o: CallOrder) => CallWeight(m, o)
  }

  function SettlementFn(m: Measure): (OrderId, Settlement) -> int {
    (_, s: Settlement) => SettlementWeight(m, s)
  }

  function AssetFn(m: Measure): (AssetId, AssetData) -> int {
    (id: AssetId, d: AssetData) => AssetWeight(m, id, d)
  }

  function CoreFn(m: Measure): (AccountId, int) -> int {
    (u: AccountId, t: int) => CoreWeight(m, u, t)
  }


  ghost function Total(m: Measure, s: Books): int {
    Sum(s.balances, BalanceFn(m)) + Sum(s.limits, LimitFn(m)) + Sum(s.shorts, ShortFn(m)) +
    Sum(s.calls, CallFn(m)) + Sum(s.settlements, SettlementFn(m)) + Sum(s.assets, AssetFn(m)) +
    Sum(s.coreInOrders, CoreFn(m))
  }

  // ----- the single writes, and what each adds to a measure -----

  function BalanceOf(s: Books, u: AccountId, a: AssetId): nat {
    if (u, a) in s.balances then s.balances[(u, a)] else 0
  }

  /** A missing balance is created by a positive delta; a negative one may not overdraw. */
  function AdjustBalance(s: Books, u: AccountId, a: AssetId, delta: int): (r: Option<Books>)
    ensures r.Some? ==> r.value == s.(balances := r.value.balances)
  {
    if delta == 0 then Some(s)
    else if delta < 0 && ((u, a) !in s.balances || s.balances[(u, a)] < -delta) then None
    else Some(s.(balances := s.balances[(u, a) := BalanceOf(s, u, a) + delta]))
  }

  /** It goes through exactly when the balance would not be negative, and then changes that balance alone. */
  lemma BalanceAdjusted(s: Books, u: AccountId, a: AssetId, delta: int)
    ensures AdjustBalance(s, u, a, delta).Some? <==> BalanceOf(s, u, a) + delta >= 0
    ensures AdjustBalance(s, u, a, delta).Some? ==>
              forall v, b :: BalanceOf(AdjustBalance(s, u, a, delta).value, v, b) ==
                             BalanceOf(s, v, b) + OnlyIf(u == v && a == b, delta)
  {
  }

  function CoreOf(s: Books, u: AccountId): int {
    if u in s.coreInOrders then s.coreInOrders[u] else 0
  }

  /** Moves the running total of an account. */
  function AddToCore(s: Books, u: AccountId, delta: int): (r: Books)
    ensures r == s.(coreInOrders := r.coreInOrders)
  {
    s.(coreInOrders := s.coreInOrders[u := CoreOf(s, u) + delta])
  }

  /** The same, for the core asset only. */
  function AddCore(s: Books, u: AccountId, a: AssetId, delta: int): (r: Books)
    ensures r == s.(coreInOrders := r.coreInOrders)
  {
    if a == CORE then AddToCore(s, u, delta) else s
  }

  function AddFees(s: Books, a: AssetId, delta: int): (r: Books)
    requires a in s.assets
    ensures r == s.(assets := r.assets) && SameAssets(s, r)
  {
    s.(assets := s.assets[a := s.assets[a].(fees := s.assets[a].fees + delta)])
  }

  function AddSupply(s: Books, a: AssetId, delta: int): (r: Books)
    requires a in s.assets
    ensures r == s.(assets := r.assets) && SameAssets(s, r)
  {
    s.(assets := s.assets[a := s.assets[a].(supply := s.assets[a].supply + delta)])
  }

  lemma BalanceMoves(m: Measure, s: Books, u: AccountId, a: AssetId, delta: int)
    requires AdjustBalance(s, u, a, delta).Some?
    ensures Total(m, AdjustBalance(s, u, a, delta).value) == Total(m, s) + Gain(m, u, a, delta)
  {
    if delta != 0 {
      var balance: nat := BalanceOf(s, u, a) + delta;
      SumPut<(AccountId, AssetId), nat>(s.balances, BalanceFn(m), (u, a), balance);
    }
  }

  lemma CoreTotalMoves(m: Measure, s: Books, u: AccountId, delta: int)
    ensures Total(m, AddToCore(s, u, delta)) == Total(m, s) - OnlyIf(m == CoreGap(u), delta)
  {
    SumPut(s.coreInOrders, CoreFn(m), u, CoreOf(s, u) + delta);
  }

  lemma CoreMoves(m: Measure, s: Books, u: AccountId, a: AssetId, delta: int)
    ensures Total(m, AddCore(s, u, a, delta)) == Total(m, s) - InOrder(m, u, a, delta)
  {
    CoreTotalMoves(m, s, u, delta);
  }

  lemma FeesMove(m: Measure, s: Books, a: AssetId, delta: int)
    requires a in s.assets
    ensures Total(m, AddFees(s, a, delta)) == Total(m, s) + OnlyIf(m == NetHoldings(a), delta)
  {
    SumPut(s.assets, AssetFn(m), a, s.assets[a].(fees := s.assets[a].fees + delta));
  }

  lemma SupplyMoves(m: Measure, s: Books, a: AssetId, delta: int)
    requires a in s.assets
    ensures Total(m, AddSupply(s, a, delta)) == Total(m, s) - OnlyIf(m == NetHoldings(a) || m == NetDebt(a), delta)
  {
    SumPut(s.assets, AssetFn(m), a, s.assets[a].(supply := s.assets[a].supply + delta));
  }

  function PutLimit(s: Books, id: OrderId, o: LimitOrder): Books { s.(limits := s.limits[id := o]) }
  function DropLimit(s: Books, id: OrderId): Books { s.(limits := s.limits - {id}) }
  function PutShort(s: Books, id: OrderId, o: ShortOrder): Books { s.(shorts := s.shorts[id := o]) }
  function DropShort(s: Books, id: OrderId): Books { s.(shorts := s.shorts - {id}) }
  function PutCall(s: Books, k: (AccountId, AssetId), o: CallOrder): Books { s.(calls := s.calls[k := o]) }
  function DropCall(s: Books, k: (AccountId, AssetId)): Books { s.(calls := s.calls - {k}) }
  function PutSettlement(s: Books, id: OrderId, o: Settlement): Books { s.(settlements := s.settlements[id := o]) }
  function DropSettlement(s: Books, id: OrderId): Books { s.(settlements := s.settlements - {id}) }

  lemma LimitMoves(m: Measure, s: Books, id: OrderId, o: LimitOrder)
    ensures Total(m, PutLimit(s, id, o)) == Total(m, s) - At(s.limits, LimitFn(m), id) + LimitWeight(m, o)
    ensures Total(m, DropLimit(s, id)) == Total(m, s) - At(s.limits, LimitFn(m), id)
  {
    SumPut(s.limits, LimitFn(m), id, o);
    SumDrop(s.limits, LimitFn(m), id);
  }

  lemma ShortMoves(m: Measure, s: Books, id: OrderId, o: ShortOrder)
    ensures Total(m, PutShort(s, id, o)) == Total(m, s) - At(s.shorts, ShortFn(m), id) + ShortWeight(m, o)
    ensures Total(m, DropShort(s, id)) == Total(m, s) - At(s.shorts, ShortFn(m), id)
  {
    SumPut(s.shorts, ShortFn(m), id, o);
    SumDrop(s.shorts, ShortFn(m), id);
  }

  lemma CallMoves(m: Measure, s: Books, k: (AccountId, AssetId), o: CallOrder)
    ensures Total(m, PutCall(s, k, o)) == Total(m, s) - At(s.calls, CallFn(m), k) + CallWeight(m, o)
    ensures Total(m, DropCall(s, k)) == Total(m, s) - At(s.calls, CallFn(m), k)
  {
    SumPut(s.calls, CallFn(m), k, o);
    SumDrop(s.calls, CallFn(m), k);
  }

  lemma SettlementMoves(m: Measure, s: Books, id: OrderId, o: Settlement)
    ensures Total(m, PutSettlement(s, id, o)) ==
            Total(m, s) - At(s.settlements, SettlementFn(m), id) + SettlementWeight(m, o)
    ensures Total(m, DropSettlement(s, id)) == Total(m, s) - At(s.settlements, SettlementFn(m), id)
  {
    SumPut(s.settlements, SettlementFn(m), id, o);
    SumDrop(s.settlements, SettlementFn(m), id);
  }
}

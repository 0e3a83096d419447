/** Matching two orders: what each side pays and receives, and the fills that follow. */
module Matching {
  import opened Wrappers
  import opened Assets
  import opened Sums
  import opened Ledger
  import opened Fills

  function Min(a: int, b: int): int {
    if a <= b then a else b
  }

  // ----- the amounts of a match -----

  /** What the first side pays and receives; the other side pays and receives the same, swapped. */
  function MatchAmounts(usd: nat, usdAsset: AssetId, core: nat, coreAsset: AssetId, p: MarketPrice): Option<(nat, nat)> {
    match Times(core, coreAsset, p)
    case None => None
    case Some(worth) =>
      if usd > worth then Some((worth, core))
      else if Times(usd, usdAsset, p).None? then None
      else Some((usd, Times(usd, usdAsset, p).value))
  }

  predicate Between(p: Price, a: AssetId, b: AssetId) {
    (p.base.id == a && p.quote.id == b) || (p.base.id == b && p.quote.id == a)
  }

  /** How many units of the first asset and of the second the price exchanges for each other. */
  function Rate(p: MarketPrice, usdAsset: AssetId): (int, int) {
    if p.base.id == usdAsset then (p.base.amount, p.quote.amount) else (p.quote.amount, p.base.amount)
  }

  /**
   Neither side pays more than it has and one side pays all of it. That side receives less than
   one unit below the exact amount, and the other side's rate is no worse than the match price.
   */
  lemma MatchRounding(usd: nat, usdAsset: AssetId, core: nat, coreAsset: AssetId, p: MarketPrice)
    requires Between(p, usdAsset, coreAsset) && MatchAmounts(usd, usdAsset, core, coreAsset, p).Some?
    ensures var (usdPays, corePays) := MatchAmounts(usd, usdAsset, core, coreAsset, p).value;
            var (x, y) := Rate(p, usdAsset);
            && usdPays <= usd && corePays <= core
            && (usdPays == usd || corePays == core)
            && if usdPays < usd then usdPays * y <= core * x < usdPays * y + y
               else corePays * x <= usd * y < corePays * x + x
  {
    hide Times;
    var (x, y) := Rate(p, usdAsset);
    var worth := Times(core, coreAsset, p).value;
    TimesRoundsDown(core, coreAsset, p);
    if usd <= worth {
      TimesRoundsDown(usd, usdAsset, p);
      var got := Times(usd, usdAsset, p).value;
      ProductGrows(usd, worth, y);
      CancelProduct(got, core, x);
    }
  }

  // ----- the fills of a match -----

  predicate Opposite(a: Price, b: Price) {
    a.base.id == b.quote.id && a.quote.id == b.base.id
  }

  /** Bit 1 says that the bid was removed, bit 2 that the ask was. */
  function Bits(bid: bool, ask: bool): int {
    (if bid then 1 else 0) + (if ask then 2 else 0)
  }

  predicate CanMatchLimits(s: Books, bid: OrderId, ask: OrderId, p: MarketPrice) {
    && bid in s.limits && ask in s.limits && bid != ask
    && Opposite(s.limits[bid].sellPrice, s.limits[ask].sellPrice)
    && Between(p, s.limits[bid].sellPrice.base.id, s.limits[ask].sellPrice.base.id)
  }

  function LimitAmounts(s: Books, bid: OrderId, ask: OrderId, p: MarketPrice): (r: Option<(nat, nat)>)
    requires CanMatchLimits(s, bid, ask, p)
    ensures r.Some? ==> r.value.0 <= s.limits[bid].forSale && r.value.1 <= s.limits[ask].forSale
  {
    var (b, a) := (s.limits[bid], s.limits[ask]);
    var r := MatchAmounts(b.forSale, b.sellPrice.base.id, a.forSale, a.sellPrice.base.id, p);
    assert r.Some? ==> r.value.0 <= b.forSale && r.value.1 <= a.forSale by {
      if r.Some? { MatchRounding(b.forSale, b.sellPrice.base.id, a.forSale, a.sellPrice.base.id, p); }
    }
    r
  }

  function MatchLimits(s: Books, bid: OrderId, ask: OrderId, p: MarketPrice): Option<(Books, int)>
    requires CanMatchLimits(s, bid, ask, p)
  {
    if LimitAmounts(s, bid, ask, p).None? then None
    else
      var (bidPays, askPays) := LimitAmounts(s, bid, ask, p).value;
      if FillLimit(s, bid, bidPays, askPays).None? then None
      else
        FillLimitFrame(s, bid, bidPays, askPays);
        var (s1, bidGone) := FillLimit(s, bid, bidPays, askPays).value;
        if FillLimit(s1, ask, askPays, bidPays).None? then None
        else
          var (s2, askGone) := FillLimit(s1, ask, askPays, bidPays).value;
          Some((s2, Bits(bidGone, askGone)))
  }

  predicate CanMatchShort(s: Books, bid: OrderId, ask: OrderId, p: MarketPrice) {
    && bid in s.limits && ask in s.shorts
    && Opposite(s.limits[bid].sellPrice, s.shorts[ask].sellPrice)
    && Between(p, s.limits[bid].sellPrice.base.id, s.shorts[ask].sellPrice.base.id)
  }

  function ShortAmounts(s: Books, bid: OrderId, ask: OrderId, p: MarketPrice): (r: Option<(nat, nat)>)
    requires CanMatchShort(s, bid, ask, p)
    ensures r.Some? ==> r.value.0 <= s.limits[bid].forSale && r.value.1 <= s.shorts[ask].forSale
  {
    var (b, a) := (s.limits[bid], s.shorts[ask]);
    var r := MatchAmounts(b.forSale, b.sellPrice.base.id, a.forSale, a.sellPrice.base.id, p);
    assert r.Some? ==> r.value.0 <= b.forSale && r.value.1 <= a.forSale by {
      if r.Some? { MatchRounding(b.forSale, b.sellPrice.base.id, a.forSale, a.sellPrice.base.id, p); }
    }
    r
  }

  function MatchShort(s: Books, bid: OrderId, ask: OrderId, p: MarketPrice): Option<(Books, int)>
    requires CanMatchShort(s, bid, ask, p)
  {
    if ShortAmounts(s, bid, ask, p).None? then None
    else
      var (bidPays, askPays) := ShortAmounts(s, bid, ask, p).value;
      if FillLimit(s, bid, bidPays, askPays).None? then None
      else
        FillLimitFrame(s, bid, bidPays, askPays);
        var (s1, bidGone) := FillLimit(s, bid, bidPays, askPays).value;
        if FillShort(s1, ask, askPays, bidPays).None? then None
        else
          var (s2, askGone) := FillShort(s1, ask, askPays, bidPays).value;
          Some((s2, Bits(bidGone, askGone)))
  }

  /** `from` units of the settled asset for `to` units of collateral; `to` may have been rounded to zero. */
  datatype SettlementPrice = SettlementPrice(from: nat, to: nat)

  /** How much of a settlement a position takes: what is left of each, and of the volume allowed. */
  function SettledAmount(s: Books, k: CallKey, id: OrderId, max: nat): nat
    requires k in s.calls && id in s.settlements
  {
    Min(Min(s.settlements[id].balance, max), s.calls[k].debt)
  }

  /** The collateral that an amount is settled for. */
  function SettledFor(amount: nat, p: SettlementPrice): Option<nat> {
    if p.from == 0 then None
    else
      FloorBounds(amount * p.to, p.from);
      if amount * p.to / p.from > MAX_SHARE_SUPPLY then None else Some(amount * p.to / p.from)
  }

  /** Matching a position with a settlement; also returns how much was settled. */
  function MatchSettlement(s: Books, k: CallKey, id: OrderId, p: SettlementPrice, max: nat): Option<(Books, nat)>
    requires k in s.calls && id in s.settlements && s.settlements[id].asset == s.calls[k].debtAsset
  {
    var amount := SettledAmount(s, k, id, max);
    if SettledFor(amount, p).None? then None
    else
      var pays := SettledFor(amount, p).value;
      if FillCall(s, k, pays, amount).None? then None
      else
        var s1 := FillCall(s, k, pays, amount).value.0;
        FillCallFrame(s, k, pays, amount);
        if FillSettlement(s1, id, amount, s.calls[k].collateralAsset, pays).None? then None
        else Some((FillSettlement(s1, id, amount, s.calls[k].collateralAsset, pays).value.0, amount))
  }

  // ----- who pays and who receives -----

  /** One account pays another, who receives it less the fee. */
  function Payment(m: Measure, from: AccountId, to: AccountId, a: AssetId, n: int, fee: int): int {
    Receipt(m, to, a, n, fee) - Gain(m, from, a, n)
  }

  /** The bidder pays the asker what the amounts say, and the asker the bidder. */
  function LimitTrade(m: Measure, s: Books, bid: OrderId, ask: OrderId, p: MarketPrice): int
    requires CanMatchLimits(s, bid, ask, p) && LimitAmounts(s, bid, ask, p).Some?
  {
    var (b, a) := (s.limits[bid], s.limits[ask]);
    var (bidPays, askPays) := LimitAmounts(s, bid, ask, p).value;
    var (x, y) := (b.sellPrice.base.id, a.sellPrice.base.id);
    Payment(m, b.seller, a.seller, x, bidPays, FeeOf(s, x, bidPays)) + Payment(m, a.seller, b.seller, y, askPays, FeeOf(s, y, askPays))
  }

  lemma MatchLimitsMoves(m: Measure, s: Books, bid: OrderId, ask: OrderId, p: MarketPrice)
    requires CanMatchLimits(s, bid, ask, p) && MatchLimits(s, bid, ask, p).Some?
    ensures LimitAmounts(s, bid, ask, p).Some?
    ensures Total(m, MatchLimits(s, bid, ask, p).value.0) == Total(m, s) + LimitTrade(m, s, bid, ask, p)
  {
    hide Total, FillLimit, LimitAmounts, FeeOf;
    var (bidPays, askPays) := LimitAmounts(s, bid, ask, p).value;
    var s1 := FillLimit(s, bid, bidPays, askPays).value.0;
    FillLimitMoves(m, s, bid, bidPays, askPays);
    FillLimitFrame(s, bid, bidPays, askPays);
    FillLimitMoves(m, s1, ask, askPays, bidPays);
    FeesStay(s, s1, s.limits[bid].sellPrice.base.id, bidPays);
  }

  lemma MatchLimitsConserves(m: Measure, s: Books, bid: OrderId, ask: OrderId, p: MarketPrice)
    requires CanMatchLimits(s, bid, ask, p) && MatchLimits(s, bid, ask, p).Some? && !m.Wealth?
    ensures Total(m, MatchLimits(s, bid, ask, p).value.0) == Total(m, s)
  {
    hide Total, MatchLimits, LimitAmounts, FeeOf;
    MatchLimitsMoves(m, s, bid, ask, p);
  }

  /** The bidder's payment goes into the position of the short seller, who issues what the bidder receives. */
  function ShortTrade(m: Measure, s: Books, bid: OrderId, ask: OrderId, p: MarketPrice): int
    requires CanMatchShort(s, bid, ask, p) && ShortAmounts(s, bid, ask, p).Some?
  {
    var (b, a) := (s.limits[bid], s.shorts[ask]);
    var (bidPays, askPays) := ShortAmounts(s, bid, ask, p).value;
    var (x, y) := (b.sellPrice.base.id, a.sellPrice.base.id);
    Payment(m, b.seller, a.seller, x, bidPays, FeeOf(s, x, bidPays)) + Receipt(m, b.seller, y, askPays, FeeOf(s, y, askPays))
    - Covering(m, a.seller, y, askPays)
  }

  lemma MatchShortMoves(m: Measure, s: Books, bid: OrderId, ask: OrderId, p: MarketPrice)
    requires CanMatchShort(s, bid, ask, p) && MatchShort(s, bid, ask, p).Some?
    requires Agrees(s, (s.shorts[ask].seller, s.shorts[ask].sellPrice.base.id), s.shorts[ask].sellPrice.quote.id)
    ensures ShortAmounts(s, bid, ask, p).Some?
    ensures Total(m, MatchShort(s, bid, ask, p).value.0) == Total(m, s) + ShortTrade(m, s, bid, ask, p)
  {
    hide Total, FillLimit, FillShort, ShortAmounts, FeeOf;
    var (bidPays, askPays) := ShortAmounts(s, bid, ask, p).value;
    var s1 := FillLimit(s, bid, bidPays, askPays).value.0;
    FillLimitMoves(m, s, bid, bidPays, askPays);
    FillLimitFrame(s, bid, bidPays, askPays);
    FillShortMoves(m, s1, ask, askPays, bidPays);
    FeesStay(s, s1, s.limits[bid].sellPrice.base.id, bidPays);
  }

  /** The borrower pays the owner of the settlement, who gives up as much of the asset as is covered of the debt. */
  function SettlementTrade(m: Measure, s: Books, k: CallKey, id: OrderId, p: SettlementPrice, max: nat): int
    requires k in s.calls && id in s.settlements && SettledFor(SettledAmount(s, k, id, max), p).Some?
  {
    var (o, r, amount) := (s.calls[k], s.settlements[id], SettledAmount(s, k, id, max));
    var pays := SettledFor(amount, p).value;
    Payment(m, o.borrower, r.owner, o.collateralAsset, pays, FeeOf(s, o.collateralAsset, pays))
    - Gain(m, r.owner, r.asset, amount) + Covering(m, o.borrower, o.debtAsset, amount)
    + OnlyIf(m == CoreGap(o.borrower), CallDrift(o, pays, amount))
  }

  lemma MatchSettlementMoves(m: Measure, s: Books, k: CallKey, id: OrderId, p: SettlementPrice, max: nat)
    requires k in s.calls && id in s.settlements && s.settlements[id].asset == s.calls[k].debtAsset
    requires MatchSettlement(s, k, id, p, max).Some?
    ensures SettledFor(SettledAmount(s, k, id, max), p).Some?
    ensures Total(m, MatchSettlement(s, k, id, p, max).value.0) == Total(m, s) + SettlementTrade(m, s, k, id, p, max)
  {
    hide Total, FillCall, FillSettlement, CallDrift, SettledFor, FeeOf;
    var amount := SettledAmount(s, k, id, max);
    var pays := SettledFor(amount, p).value;
    var s1 := FillCall(s, k, pays, amount).value.0;
    FillCallMoves(m, s, k, pays, amount);
    FillCallFrame(s, k, pays, amount);
    FillSettlementMoves(m, s1, id, amount, s.calls[k].collateralAsset, pays);
    FeesStay(s, s1, s.calls[k].collateralAsset, pays);
  }

  /** What is held and owed, net of supply, stays. */
  lemma SettlementIsNet(m: Measure, s: Books, k: CallKey, id: OrderId, p: SettlementPrice, max: nat)
    requires k in s.calls && id in s.settlements && SettledFor(SettledAmount(s, k, id, max), p).Some?
    requires IsNet(m) && s.settlements[id].asset == s.calls[k].debtAsset
    ensures SettlementTrade(m, s, k, id, p, max) == 0
  {
    hide SettledFor, SettledAmount, CallDrift, FeeOf;
  }
}

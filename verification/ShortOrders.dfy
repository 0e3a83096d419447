/**
 The collateral of a short order over its fills. Every partial fill takes a share by price, and
 the code asserts that some is left; whether that always holds is decided when the order is placed.
 */
module ShortOrders {
  import opened Wrappers
  import opened Assets
  import opened Ledger
  import opened Fills

  /** The price of a short order: what is sold, for the share of the collateral that the ratio above one stands for. */
  function SellPrice(sale: nat, saleAsset: AssetId, collateral: nat, collateralAsset: AssetId,
                     ratio: Ratio): Option<Price> {
    match CallPrice(sale, saleAsset, collateral, collateralAsset, ratio)
    case None => None
    case Some(p) => Some(p.Inverse())
  }

  /** The order after some fills, none of which uses it up. */
  function AfterFills(o: ShortOrder, fills: seq<nat>): Option<ShortOrder>
    decreases |fills|
  {
    if fills == [] then Some(o)
    else if fills[0] >= o.forSale || ShortCollateral(o, fills[0]).None? then None
    else
      var share := ShortCollateral(o, fills[0]).value;
      AfterFills(o.(forSale := o.forSale - fills[0], availableCollateral := o.availableCollateral - share), fills[1..])
  }

  /** What is for sale, but for the last unit, is worth less than the collateral there is. */
  predicate IsCovered(o: ShortOrder) {
    o.forSale > 0 && (o.forSale - 1) * o.sellPrice.quote.amount < o.availableCollateral * o.sellPrice.base.amount
  }

  lemma CoveredHasCollateral(o: ShortOrder)
    requires IsCovered(o)
    ensures o.availableCollateral > 0
  {
  }

  lemma FillKeepsCovered(o: ShortOrder, pays: nat)
    requires IsCovered(o) && pays < o.forSale && ShortCollateral(o, pays).Some?
    ensures IsCovered(o.(forSale := o.forSale - pays, availableCollateral := o.availableCollateral - ShortCollateral(o, pays).value))
  {
  }

  lemma {:induction false} CoveredLasts(o: ShortOrder, fills: seq<nat>)
    requires IsCovered(o) && AfterFills(o, fills).Some?
    ensures AfterFills(o, fills).value.availableCollateral > 0 && AfterFills(o, fills).value.forSale > 0
    decreases |fills|
  {
    hide IsCovered, ShortCollateral;
    if fills == [] {
      CoveredHasCollateral(o);
      CoveredSells(o);
    } else {
      FillKeepsCovered(o, fills[0]);
      var share := ShortCollateral(o, fills[0]).value;
      CoveredLasts(o.(forSale := o.forSale - fills[0], availableCollateral := o.availableCollateral - share), fills[1..]);
    }
  }

  lemma CoveredSells(o: ShortOrder)
    requires IsCovered(o)
    ensures o.forSale > 0
  {
  }

  /** Whatever the fills, a new order keeps some collateral exactly when it is covered at the start. */
  lemma {:induction false} CollateralLasts(o: ShortOrder)
    requires o.forSale == o.sellPrice.base.amount && o.sellPrice.quote.amount <= MAX_SHARE_SUPPLY
    ensures (forall fills :: AfterFills(o, fills).Some? ==> AfterFills(o, fills).value.availableCollateral > 0) <==> IsCovered(o)
  {
    if IsCovered(o) {
      forall fills | AfterFills(o, fills).Some?
        ensures AfterFills(o, fills).value.availableCollateral > 0
      {
        CoveredLasts(o, fills);
      }
    } else {
      AllButOneTakesAll(o);
    }
  }

  /** Otherwise a fill of all but one unit takes it all. */
  lemma AllButOneTakesAll(o: ShortOrder)
    requires o.forSale == o.sellPrice.base.amount && o.sellPrice.quote.amount <= MAX_SHARE_SUPPLY && !IsCovered(o)
    ensures var r := AfterFills(o, [(o.forSale - 1) as nat]);
            r.Some? && r.value.forSale == 1 && r.value.availableCollateral <= 0
  {
    var (f, q, pays) := (o.sellPrice.base.amount, o.sellPrice.quote.amount, o.forSale - 1);
    ProductIsNat(pays, q);
    FloorBounds(pays * q, f);
    ProductGrows(pays, f, q);
    CancelProduct(pays * q / f, q, f);
    var share := ShortCollateral(o, pays).value;
    assert share == pays * q / f;
    if o.availableCollateral > 0 { QuotientAtMost(o.availableCollateral, pays * q, f); }
    OneFill(o, pays);
  }

  lemma {:induction false} OneFill(o: ShortOrder, pays: nat)
    requires pays < o.forSale && ShortCollateral(o, pays).Some?
    ensures AfterFills(o, [pays]) ==
              Some(o.(forSale := o.forSale - pays, availableCollateral := o.availableCollateral - ShortCollateral(o, pays).value))
  {
  }

  /** An initial ratio of at most two keeps every order covered. */
  lemma LowRatiosAreCovered(o: ShortOrder, ratio: Ratio)
    requires o.forSale == o.sellPrice.base.amount && o.availableCollateral > 0 && ratio <= 2000
    requires SellPrice(o.forSale, o.sellPrice.base.id, o.availableCollateral, o.sellPrice.quote.id, ratio) == Some(o.sellPrice)
    requires o.availableCollateral < 0x1_0000_0000_0000_0000
    ensures IsCovered(o)
  {
    var (c, q, f) := (o.availableCollateral, o.sellPrice.quote.amount, o.forSale);
    assert q == c * (ratio - 1000) / 1000;
    ProductGrows(ratio - 1000, 1000, c);
    FloorBounds(c * (ratio - 1000), 1000);
    assert q <= c;
    ProductGrows(q, c, f - 1);
    assert (f - 1) * q <= (f - 1) * c == f * c - c;
  }

  /** A higher one need not: at a ratio of three, four units are priced at twice the collateral behind them. */
  lemma HighRatiosNeedNotBe() returns (o: ShortOrder)
    ensures SellPrice(o.forSale, o.sellPrice.base.id, 10, o.sellPrice.quote.id, 3000) == Some(o.sellPrice)
    ensures o.availableCollateral == 10 && o.forSale == o.sellPrice.base.amount && !IsCovered(o)
  {
    o := ShortOrder(1, 4, 10, Price(Asset(4, 1), Asset(20, CORE)), 1750);
  }
}

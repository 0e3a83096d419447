/** Amounts of assets, prices and their order, and the conversion of an amount at a price. */
module Assets {
  import opened Wrappers

  const MAX_SHARE_SUPPLY := 1_000_000_000_000
  const HUNDRED_PERCENT := 10_000

  type AssetId = nat

  const CORE: AssetId := 0

  datatype Asset = Asset(amount: int, id: AssetId)

  datatype Price = Price(base: Asset, quote: Asset) {
    /** `price::validate` */
    predicate Valid() {
      base.amount > 0 && quote.amount > 0 && base.id != quote.id
    }

    function Inverse(): Price {
      Price(quote, base)
    }

    /** The equality operator of prices makes only a price between the core asset and itself null. */
    predicate IsNull() {
      base.id == CORE && quote.id == CORE
    }
  }

  type MarketPrice = p: Price | p.Valid() witness Price(Asset(1, 0), Asset(1, 1))

  predicate SameMarket(a: Price, b: Price) {
    a.base.id == b.base.id && a.quote.id == b.quote.id
  }

  predicate Less(a: Price, b: Price) {
    if a.base.id != b.base.id then a.base.id < b.base.id
    else if a.quote.id != b.quote.id then a.quote.id < b.quote.id
    else b.quote.amount * a.base.amount < a.quote.amount * b.base.amount
  }

  predicate AtMost(a: Price, b: Price) {
    if a.base.id != b.base.id then a.base.id < b.base.id
    else if a.quote.id != b.quote.id then a.quote.id < b.quote.id
    else b.quote.amount * a.base.amount <= a.quote.amount * b.base.amount
  }

  /** The highest and the lowest price of a market. */
  function MaxPrice(base: AssetId, quote: AssetId): Price {
    Price(Asset(MAX_SHARE_SUPPLY, base), Asset(1, quote))
  }

  function MinPrice(base: AssetId, quote: AssetId): Price {
    Price(Asset(1, base), Asset(MAX_SHARE_SUPPLY, quote))
  }

  // ----- the cross-multiplied order is the order of the ratios -----

  ghost function Ratio(p: Price): real
    requires p.quote.amount > 0
  {
    p.base.amount as real / p.quote.amount as real
  }

  lemma CrossMultiply(a: int, b: int, c: int, d: int)
    requires b > 0 && d > 0
    ensures a as real / b as real < c as real / d as real <==> d * a < b * c
    ensures a as real / b as real <= c as real / d as real <==> d * a <= b * c
  {
  }

  lemma OrderIsRatio(a: Price, b: Price)
    requires a.Valid() && b.Valid() && SameMarket(a, b)
    ensures Less(a, b) <==> Ratio(a) < Ratio(b)
    ensures AtMost(a, b) <==> Ratio(a) <= Ratio(b)
  {
    CrossMultiply(a.base.amount, a.quote.amount, b.base.amount, b.quote.amount);
  }

  /** On valid prices the comparisons are those of one total preorder, across markets too. */
  lemma OrderIsTotal(a: Price, b: Price, c: Price)
    requires a.Valid() && b.Valid() && c.Valid()
    ensures AtMost(a, b) <==> !Less(b, a)
    ensures Less(a, b) ==> AtMost(a, b)
    ensures AtMost(a, b) && AtMost(b, c) ==> AtMost(a, c)
    ensures Less(a, b) && AtMost(b, c) ==> Less(a, c)
    ensures AtMost(a, b) && Less(b, c) ==> Less(a, c)
  {
  }

  lemma InverseReverses(a: Price, b: Price)
    requires a.Valid() && b.Valid() && SameMarket(a, b)
    ensures Less(a, b) <==> Less(b.Inverse(), a.Inverse())
    ensures AtMost(a, b) <==> AtMost(b.Inverse(), a.Inverse())
  {
  }

  // ----- converting amounts -----

  lemma FloorBounds(n: nat, den: int)
    requires den > 0
    ensures n / den * den <= n < n / den * den + den
    ensures n / den >= 0
  {
  }

  lemma ProductIsNat(a: nat, b: int)
    requires b > 0
    ensures a * b >= 0
  {
  }

  /** An amount at a rate, rounded down; throws above the largest supply. */
  function Scale(amount: nat, num: int, den: int): Option<nat>
    requires num > 0 && den > 0
  {
    ProductIsNat(amount, num);
    FloorBounds(amount * num, den);
    var q := amount * num / den;
    if q <= MAX_SHARE_SUPPLY then Some(q) else None
  }

  /** `asset * price`, by the leg that the asset is in. */
  function Times(amount: nat, id: AssetId, p: MarketPrice): Option<nat> {
    if id == p.base.id then Scale(amount, p.quote.amount, p.base.amount)
    else if id == p.quote.id then Scale(amount, p.base.amount, p.quote.amount)
    else None
  }

  /** What the asset `id` is exchanged from and to at this price. */
  function Legs(id: AssetId, p: Price): (int, int) {
    if id == p.base.id then (p.base.amount, p.quote.amount) else (p.quote.amount, p.base.amount)
  }

  /** The result is the exact value rounded down: at this price it is worth less than one unit less. */
  lemma TimesRoundsDown(amount: nat, id: AssetId, p: MarketPrice)
    requires Times(amount, id, p).Some?
    ensures id == p.base.id || id == p.quote.id
    ensures var q, (from, to) := Times(amount, id, p).value, Legs(id, p);
            q * from <= amount * to < q * from + from
  {
  }

  /** It is there exactly when the asset is in one of the legs and the result within the largest supply. */
  lemma TimesSucceeds(amount: nat, id: AssetId, p: MarketPrice)
    ensures Times(amount, id, p).Some? <==>
              && (id == p.base.id || id == p.quote.id)
              && var (from, to) := Legs(id, p); amount * to < (MAX_SHARE_SUPPLY + 1) * from
  {
    var (from, to) := Legs(id, p);
    ProductIsNat(amount, to);
    FloorBounds(amount * to, from);
    QuotientAtMost(MAX_SHARE_SUPPLY + 1, amount * to, from);
  }

  lemma MultiplesApart(x: int, y: int, den: int)
    requires x < y && den > 0
    ensures x * den + den <= y * den
  {
    assert x * den + den == (x + 1) * den;
  }

  lemma ProductGrows(a: int, b: int, x: int)
    requires a <= b && x >= 0
    ensures a * x <= b * x
  {
  }

  lemma CancelProduct(a: int, b: int, x: int)
    requires x > 0 && a * x <= b * x
    ensures a <= b
  {
  }

  lemma QuotientAtMost(q: nat, n: nat, d: int)
    requires d > 0
    ensures q <= n / d <==> q * d <= n
  {
    FloorBounds(n, d);
    if q <= n / d {
      ProductGrows(q, n / d, d);
    } else {
      MultiplesApart(n / d, q, d);
    }
  }

  lemma FloorIsMonotone(m: nat, n: nat, den: int)
    requires m <= n && den > 0
    ensures m / den <= n / den
  {
    FloorBounds(m, den);
    FloorBounds(n, den);
    if m / den > n / den {
      MultiplesApart(n / den, m / den, den);
    }
  }

  lemma TimesIsMonotone(a: nat, b: nat, id: AssetId, p: MarketPrice)
    requires a <= b && Times(b, id, p).Some?
    ensures Times(a, id, p).Some? && Times(a, id, p).value <= Times(b, id, p).value
  {
    var (from, to) := Legs(id, p);
    ProductIsNat(a, to);
    assert a * to <= b * to;
    FloorIsMonotone(a * to, b * to, from);
  }
}

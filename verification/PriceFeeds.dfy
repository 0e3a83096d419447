/**
 Price feeds of a market-issued asset: their validation, and the median of the live ones, taken
 field by field. The medians of valid feeds keep the order of the two ratios; those of the two
 limits are in order for every odd number of feeds, and may cross for every even one.
 */
module PriceFeeds {
  import opened Assets
  import opened Counting

  datatype Feed = Feed(
    callLimit: Price, shortLimit: Price, settlementPrice: Price,
    maxMarginPeriod: nat, requiredInitial: nat, requiredMaintenance: nat)

  const NO_PRICE := Price(Asset(0, CORE), Asset(0, CORE))

  const NO_FEED := Feed(NO_PRICE, NO_PRICE, NO_PRICE, 2_592_000, 2000, 1750)

  /** `price_feed::validate` */
  predicate ValidFeed(f: Feed) {
    && (f.callLimit.IsNull() || f.callLimit.Valid())
    && (f.shortLimit.IsNull() || f.shortLimit.Valid())
    && (f.settlementPrice.IsNull() || f.settlementPrice.Valid())
    && f.callLimit.IsNull() == f.shortLimit.IsNull()
    && f.callLimit.base.id == f.shortLimit.quote.id
    && f.callLimit.quote.id == f.shortLimit.base.id
    && f.maxMarginPeriod > 0
    && f.requiredMaintenance < f.requiredInitial
    && f.requiredMaintenance >= 1000
    && (f.callLimit.IsNull() || Less(f.callLimit, f.shortLimit.Inverse()))
  }

  /**
   A feed of a market with both limits: positive amounts and times, ratios in
   order, and the call limit below the short limit.
   */
  lemma ValidFeedMeans(f: Feed, backing: AssetId, asset: AssetId)
    requires backing != asset && f.callLimit.base.id == backing && f.callLimit.quote.id == asset
    requires f.settlementPrice.base.id == asset && f.settlementPrice.quote.id == backing
    ensures ValidFeed(f) <==>
              && f.shortLimit.base.id == asset && f.shortLimit.quote.id == backing
              && f.callLimit.base.amount > 0 && f.callLimit.quote.amount > 0
              && f.shortLimit.base.amount > 0 && f.shortLimit.quote.amount > 0
              && f.settlementPrice.base.amount > 0 && f.settlementPrice.quote.amount > 0
              && f.callLimit.base.amount * f.shortLimit.base.amount < f.callLimit.quote.amount * f.shortLimit.quote.amount
              && f.maxMarginPeriod > 0 && 1000 <= f.requiredMaintenance < f.requiredInitial
  {
  }

  // ----- comparing feeds by a field -----

  datatype Field = CallLimit | ShortLimit | SettlementPrice | MarginPeriod | Initial | Maintenance

  predicate LessBy(field: Field, a: Feed, b: Feed) {
    match field
    case CallLimit => Less(a.callLimit, b.callLimit)
    case ShortLimit => Less(a.shortLimit, b.shortLimit)
    case SettlementPrice => Less(a.settlementPrice, b.settlementPrice)
    case MarginPeriod => a.maxMarginPeriod < b.maxMarginPeriod
    case Initial => a.requiredInitial < b.requiredInitial
    case Maintenance => a.requiredMaintenance < b.requiredMaintenance
  }

  /** The prices that the order is one for: valid ones, and the null price. */
  predicate Comparable(p: Price) {
    p.Valid() || p == NO_PRICE
  }

  predicate Sortable(f: Feed) {
    Comparable(f.callLimit) && Comparable(f.shortLimit) && Comparable(f.settlementPrice)
  }

  lemma FieldIsOrdered(field: Field, a: Feed, b: Feed, c: Feed)
    requires Sortable(a) && Sortable(b) && Sortable(c)
    ensures LessBy(field, a, b) ==> !LessBy(field, b, a)
    ensures !LessBy(field, b, a) && !LessBy(field, c, b) ==> !LessBy(field, c, a)
  {
  }

  function LessFn(field: Field): (Feed, Feed) -> bool {
    (a: Feed, b: Feed) => LessBy(field, a, b)
  }

  lemma FieldIsWeakOrder(field: Field, s: seq<Feed>)
    requires forall f <- s :: Sortable(f)
    ensures IsWeakOrder(multiset(s), LessFn(field))
  {
    hide LessBy, Sortable;
    forall a, b, c | a in multiset(s) && b in multiset(s) && c in multiset(s)
      ensures LessFn(field)(a, b) ==> !LessFn(field)(b, a)
      ensures !LessFn(field)(b, a) && !LessFn(field)(c, b) ==> !LessFn(field)(c, a)
    {
      FieldIsOrdered(field, a, b, c);
    }
  }

  // ----- the live feeds -----

  predicate IsLive(published: nat, now: nat, lifetime: nat) {
    (now as int) - published < lifetime && published != 0
  }

  function LiveFeeds(feeds: seq<(nat, Feed)>, now: nat, lifetime: nat): seq<Feed> {
    if feeds == [] then []
    else (if IsLive(feeds[0].0, now, lifetime) then [feeds[0].1] else []) + LiveFeeds(feeds[1..], now, lifetime)
  }

  /** The earliest publication among the live feeds, and no later than now. */
  function PublicationTime(feeds: seq<(nat, Feed)>, now: nat, lifetime: nat): (r: nat)
    ensures r <= now
  {
    if feeds == [] then now
    else
      var rest := PublicationTime(feeds[1..], now, lifetime);
      if IsLive(feeds[0].0, now, lifetime) && feeds[0].0 < rest then feeds[0].0 else rest
  }

  /** Published, and not longer ago than the lifetime. */
  predicate IsFresh(published: nat, now: nat, lifetime: nat) {
    published > 0 && now < published + lifetime
  }

  /** The positions of the fresh feeds from one on, and in order what is published there. */
  ghost predicate AreFresh(feeds: seq<(nat, Feed)>, from: nat, now: nat, lifetime: nat, ids: seq<nat>, live: seq<Feed>) {
    && |ids| == |live|
    && (forall i :: 0 <= i < |ids| ==> from <= ids[i] < |feeds| && live[i] == feeds[ids[i]].1)
    && (forall i, j :: 0 <= i < j < |ids| ==> ids[i] < ids[j])
    && (forall k :: from <= k < |feeds| ==> (k in ids <==> IsFresh(feeds[k].0, now, lifetime)))
  }

  lemma {:induction false} LiveFromAreFresh(feeds: seq<(nat, Feed)>, from: nat, now: nat,
                                            lifetime: nat) returns (ids: seq<nat>)
    requires from <= |feeds|
    ensures AreFresh(feeds, from, now, lifetime, ids, LiveFeeds(feeds[from..], now, lifetime))
    decreases |feeds| - from
  {
    if from == |feeds| {
      ids := [];
    } else {
      ids := LiveFromAreFresh(feeds, from + 1, now, lifetime);
      assert feeds[from..][1..] == feeds[from + 1..];
      OneMoreFeed(feeds, from, now, lifetime, ids, LiveFeeds(feeds[from + 1..], now, lifetime));
      if IsLive(feeds[from].0, now, lifetime) { ids := [from] + ids; }
    }
  }

  lemma OneMoreFeed(feeds: seq<(nat, Feed)>, from: nat, now: nat, lifetime: nat, ids: seq<nat>, live: seq<Feed>)
    requires from < |feeds| && AreFresh(feeds, from + 1, now, lifetime, ids, live)
    ensures IsFresh(feeds[from].0, now, lifetime) ==>
              AreFresh(feeds, from, now, lifetime, [from] + ids, [feeds[from].1] + live)
    ensures !IsFresh(feeds[from].0, now, lifetime) ==> AreFresh(feeds, from, now, lifetime, ids, live)
  {
    hide IsFresh;
  }

  /** The live feeds are the fresh ones, all of them, in the order of their publishers. */
  lemma {:induction false} LiveFeedsAreFresh(feeds: seq<(nat, Feed)>, now: nat, lifetime: nat) returns (ids: seq<nat>)
    ensures AreFresh(feeds, 0, now, lifetime, ids, LiveFeeds(feeds, now, lifetime))
  {
    ids := LiveFromAreFresh(feeds, 0, now, lifetime);
    assert feeds[0..] == feeds;
  }

  lemma {:induction false} PublicationIsEarliest(feeds: seq<(nat, Feed)>, now: nat, lifetime: nat)
    ensures var r := PublicationTime(feeds, now, lifetime);
            && (forall f <- feeds :: IsFresh(f.0, now, lifetime) ==> r <= f.0)
            && (r == now || exists f <- feeds :: IsFresh(f.0, now, lifetime) && f.0 == r)
  {
    if feeds == [] {
    } else {
      PublicationIsEarliest(feeds[1..], now, lifetime);
    }
  }

  // ----- medians -----

  function AtMostFn(field: Field, m: Feed): Feed -> bool {
    (f: Feed) => !LessBy(field, m, f)
  }

  function AtLeastFn(field: Field, m: Feed): Feed -> bool {
    (f: Feed) => !LessBy(field, f, m)
  }

  predicate SameField(field: Field, a: Feed, b: Feed) {
    match field
    case CallLimit => a.callLimit == b.callLimit
    case ShortLimit => a.shortLimit == b.shortLimit
    case SettlementPrice => a.settlementPrice == b.settlementPrice
    case MarginPeriod => a.maxMarginPeriod == b.maxMarginPeriod
    case Initial => a.requiredInitial == b.requiredInitial
    case Maintenance => a.requiredMaintenance == b.requiredMaintenance
  }

  /** One of the values, with more than half of them at most it, and half, rounded up, at least it. */
  ghost predicate IsMedian(field: Field, feeds: seq<Feed>, m: Feed) {
    && (exists i :: 0 <= i < |feeds| && SameField(field, feeds[i], m))
    && Count(feeds, AtMostFn(field, m)) > |feeds| / 2
    && Count(feeds, AtLeastFn(field, m)) >= |feeds| - |feeds| / 2
  }

  ghost predicate IsMedianFeed(feeds: seq<Feed>, m: Feed) {
    forall field :: IsMedian(field, feeds, m)
  }

  lemma NthIsMedian(field: Field, feeds: seq<Feed>, r: seq<Feed>)
    requires |feeds| > 0 && multiset(r) == multiset(feeds) && |r| == |feeds|
    requires IsNth(r, |r| / 2, LessFn(field)) && !LessBy(field, r[|r| / 2], r[|r| / 2])
    ensures IsMedian(field, feeds, r[|r| / 2])
  {
    hide LessBy;
    var n, m := |r| / 2, r[|r| / 2];
    CountStretch(r, 0, n + 1, AtMostFn(field, m));
    CountStretch(r, n, |r|, AtLeastFn(field, m));
    CountPermutes(r, feeds, AtMostFn(field, m));
    CountPermutes(r, feeds, AtLeastFn(field, m));
    assert m in multiset(feeds);
  }

  lemma FieldIsMedian(field: Field, feeds: seq<Feed>, a: Feed, b: Feed)
    requires IsMedian(field, feeds, a) && SameField(field, a, b)
    ensures IsMedian(field, feeds, b)
  {
    CountSame(feeds, AtMostFn(field, a), AtMostFn(field, b));
    CountSame(feeds, AtLeastFn(field, a), AtLeastFn(field, b));
  }

  /** What it means for numbers: more than half of the feeds have at most the median's, and half at least that. */
  ghost predicate IsMiddle(feeds: seq<Feed>, value: Feed -> nat, m: nat) {
    && (exists i :: 0 <= i < |feeds| && value(feeds[i]) == m)
    && Count(feeds, (f: Feed) => value(f) <= m) > |feeds| / 2
    && Count(feeds, (f: Feed) => value(f) >= m) >= |feeds| - |feeds| / 2
  }

  /** The ratio of a price is at most that of another. */
  predicate RatioAtMost(p: Price, q: Price) {
    p.base.amount * q.quote.amount <= q.base.amount * p.quote.amount
  }

  lemma RatioIsOrder(p: Price, q: Price)
    requires SameMarket(p, q)
    ensures RatioAtMost(p, q) <==> !Less(q, p)
  {
  }

  /** And for prices of one market, by their ratios. */
  ghost predicate IsMiddlePrice(feeds: seq<Feed>, price: Feed -> Price, m: Price) {
    && (exists i :: 0 <= i < |feeds| && price(feeds[i]) == m)
    && Count(feeds, (f: Feed) => RatioAtMost(price(f), m)) > |feeds| / 2
    && Count(feeds, (f: Feed) => RatioAtMost(m, price(f))) >= |feeds| - |feeds| / 2
  }

  lemma NumbersAreMiddle(feeds: seq<Feed>, m: Feed)
    requires IsMedianFeed(feeds, m)
    ensures IsMiddle(feeds, (f: Feed) => f.maxMarginPeriod, m.maxMarginPeriod)
    ensures IsMiddle(feeds, (f: Feed) => f.requiredInitial, m.requiredInitial)
    ensures IsMiddle(feeds, (f: Feed) => f.requiredMaintenance, m.requiredMaintenance)
  {
    MiddleOfField(MarginPeriod, feeds, m, (f: Feed) => f.maxMarginPeriod);
    MiddleOfField(Initial, feeds, m, (f: Feed) => f.requiredInitial);
    MiddleOfField(Maintenance, feeds, m, (f: Feed) => f.requiredMaintenance);
  }

  lemma MiddleOfField(field: Field, feeds: seq<Feed>, m: Feed, value: Feed -> nat)
    requires IsMedian(field, feeds, m)
    requires forall f, g :: (LessBy(field, f, g) <==> value(f) < value(g)) && (SameField(field, f, g) <==> value(f) == value(g))
    ensures IsMiddle(feeds, value, value(m))
  {
    hide LessBy, SameField;
    var v := value(m);
    CountSame(feeds, AtMostFn(field, m), (f: Feed) => value(f) <= v);
    CountSame(feeds, AtLeastFn(field, m), (f: Feed) => value(f) >= v);
    var i :| 0 <= i < |feeds| && SameField(field, feeds[i], m);
    assert value(feeds[i]) == v;
  }

  lemma MiddleOfPrices(field: Field, feeds: seq<Feed>, m: Feed, price: Feed -> Price)
    requires IsMedian(field, feeds, m) && forall f <- feeds :: SameMarket(price(f), price(m))
    requires forall f, g :: (LessBy(field, f, g) <==> Less(price(f), price(g))) && (SameField(field, f, g) <==> price(f) == price(g))
    ensures IsMiddlePrice(feeds, price, price(m))
  {
    hide LessBy, SameField, Less, RatioAtMost;
    var p := price(m);
    forall f <- feeds
      ensures RatioAtMost(price(f), p) <==> !Less(p, price(f))
      ensures RatioAtMost(p, price(f)) <==> !Less(price(f), p)
    {
      RatioIsOrder(price(f), p);
      RatioIsOrder(p, price(f));
    }
    CountSame(feeds, AtMostFn(field, m), (f: Feed) => RatioAtMost(price(f), p));
    CountSame(feeds, AtLeastFn(field, m), (f: Feed) => RatioAtMost(p, price(f)));
    var i :| 0 <= i < |feeds| && SameField(field, feeds[i], m);
    assert price(feeds[i]) == p;
  }

  ghost predicate InOneMarket(feeds: seq<Feed>, price: Feed -> Price) {
    forall f <- feeds, g <- feeds :: SameMarket(price(f), price(g))
  }

  lemma FieldPriceIsMiddle(field: Field, feeds: seq<Feed>, m: Feed, price: Feed -> Price)
    requires IsMedianFeed(feeds, m) && InOneMarket(feeds, price)
    requires forall f, g :: (LessBy(field, f, g) <==> Less(price(f), price(g))) && (SameField(field, f, g) <==> price(f) == price(g))
    ensures IsMiddlePrice(feeds, price, price(m))
  {
    hide LessBy, SameField, Less, IsMiddlePrice, SameMarket;
    assert IsMedian(field, feeds, m);
    var i :| 0 <= i < |feeds| && SameField(field, feeds[i], m);
    assert feeds[i] in feeds && price(feeds[i]) == price(m);
    MiddleOfPrices(field, feeds, m, price);
  }

  /** The medians of all three prices are in the middle by their ratios. */
  lemma PricesAreMiddle(feeds: seq<Feed>, m: Feed)
    requires IsMedianFeed(feeds, m)
    requires InOneMarket(feeds, (f: Feed) => f.callLimit) && InOneMarket(feeds, (f: Feed) => f.shortLimit)
    requires InOneMarket(feeds, (f: Feed) => f.settlementPrice)
    ensures IsMiddlePrice(feeds, (f: Feed) => f.callLimit, m.callLimit)
    ensures IsMiddlePrice(feeds, (f: Feed) => f.shortLimit, m.shortLimit)
    ensures IsMiddlePrice(feeds, (f: Feed) => f.settlementPrice, m.settlementPrice)
  {
    hide Less, IsMiddlePrice, IsMedianFeed, InOneMarket;
    FieldPriceIsMiddle(CallLimit, feeds, m, (f: Feed) => f.callLimit);
    FieldPriceIsMiddle(ShortLimit, feeds, m, (f: Feed) => f.shortLimit);
    FieldPriceIsMiddle(SettlementPrice, feeds, m, (f: Feed) => f.settlementPrice);
  }

  // ----- what the medians keep -----

  /** The market of an asset: its limits and settlement price are between it and what backs it. */
  predicate InMarket(f: Feed, backing: AssetId, asset: AssetId) {
    && f.callLimit.base.id == backing && f.callLimit.quote.id == asset
    && f.settlementPrice.Valid() && f.settlementPrice.base.id == asset && f.settlementPrice.quote.id == backing
  }

  /** The median of the maintenance ratios is below that of the initial ratios, for any valid feeds. */
  lemma RatiosStayInOrder(feeds: seq<Feed>, m: Feed)
    requires IsMedianFeed(feeds, m) && forall f <- feeds :: ValidFeed(f)
    ensures 1000 <= m.requiredMaintenance < m.requiredInitial
  {
    assert IsMedian(Maintenance, feeds, m) && IsMedian(Initial, feeds, m);
    var i := Pigeonhole(feeds, AtMostFn(Initial, m), AtLeastFn(Maintenance, m));
    assert ValidFeed(feeds[i]);
    var j :| 0 <= j < |feeds| && SameField(Maintenance, feeds[j], m);
    assert ValidFeed(feeds[j]);
  }

  /** For an odd number of feeds the medians of the limits are in order too, and the median feed is itself valid. */
  lemma MedianIsValid(feeds: seq<Feed>, m: Feed, backing: AssetId, asset: AssetId)
    requires IsMedianFeed(feeds, m) && |feeds| % 2 == 1 && backing != asset
    requires forall f <- feeds :: ValidFeed(f) && InMarket(f, backing, asset)
    ensures ValidFeed(m) && InMarket(m, backing, asset)
    ensures Less(m.callLimit, m.shortLimit.Inverse())
  {
    hide Less;
    RatiosStayInOrder(feeds, m);
    MedianInMarket(feeds, m, backing, asset);
    assert IsMedian(CallLimit, feeds, m) && IsMedian(ShortLimit, feeds, m);
    var i := Pigeonhole(feeds, AtLeastFn(CallLimit, m), AtLeastFn(ShortLimit, m));
    var f := feeds[i];
    assert ValidFeed(f) && InMarket(f, backing, asset);
    InverseReverses(m.shortLimit, f.shortLimit);
    OrderIsTotal(m.callLimit, f.callLimit, f.shortLimit.Inverse());
    OrderIsTotal(m.callLimit, f.shortLimit.Inverse(), m.shortLimit.Inverse());
    OrderIsTotal(m.shortLimit, f.shortLimit, m.shortLimit);
    OrderIsTotal(f.callLimit, m.callLimit, f.callLimit);
  }

  lemma MedianInMarket(feeds: seq<Feed>, m: Feed, backing: AssetId, asset: AssetId)
    requires IsMedianFeed(feeds, m) && backing != asset
    requires forall f <- feeds :: ValidFeed(f) && InMarket(f, backing, asset)
    ensures m.callLimit.Valid() && m.shortLimit.Valid() && InMarket(m, backing, asset) && m.maxMarginPeriod > 0
    ensures m.shortLimit.base.id == asset && m.shortLimit.quote.id == backing
  {
    hide Less;
    assert IsMedian(CallLimit, feeds, m) && IsMedian(ShortLimit, feeds, m);
    assert IsMedian(SettlementPrice, feeds, m) && IsMedian(MarginPeriod, feeds, m);
    var c :| 0 <= c < |feeds| && SameField(CallLimit, feeds[c], m);
    var s :| 0 <= s < |feeds| && SameField(ShortLimit, feeds[s], m);
    var p :| 0 <= p < |feeds| && SameField(SettlementPrice, feeds[p], m);
    var d :| 0 <= d < |feeds| && SameField(MarginPeriod, feeds[d], m);
    assert forall i <- {c, s, p, d} :: ValidFeed(feeds[i]) && InMarket(feeds[i], backing, asset);
  }

  function WithinFn(field: Field, lo: Feed, hi: Feed): Feed -> bool {
    (f: Feed) => !LessBy(field, f, lo) && !LessBy(field, hi, f)
  }

  /** Where more than half of the feeds have a field within bounds, the median does. */
  lemma {:induction false} MajorityRules(field: Field, feeds: seq<Feed>, m: Feed, lo: Feed, hi: Feed)
    requires IsMedian(field, feeds, m) && Sortable(m) && Sortable(lo) && Sortable(hi) && forall f <- feeds :: Sortable(f)
    requires Count(feeds, WithinFn(field, lo, hi)) > |feeds| / 2
    ensures !LessBy(field, m, lo) && !LessBy(field, hi, m)
  {
    hide LessBy, Sortable;
    var i := Pigeonhole(feeds, WithinFn(field, lo, hi), AtMostFn(field, m));
    FieldIsOrdered(field, lo, feeds[i], m);
    var j := Pigeonhole(feeds, WithinFn(field, lo, hi), AtLeastFn(field, m));
    FieldIsOrdered(field, m, feeds[j], hi);
  }

  // ----- an even number of feeds -----

  /** A valid feed with this call limit and this inverse of the short limit. */
  function FeedOf(call: nat, short: nat): Feed
    requires call > 0 && short > 0
  {
    Feed(Price(Asset(call, CORE), Asset(1, 1)), Price(Asset(1, 1), Asset(short, CORE)), Price(Asset(1, 1), Asset(call, CORE)),
         1, 2000, 1750)
  }

  function Repeated(f: Feed, n: nat): (r: seq<Feed>)
    ensures |r| == n && forall i :: 0 <= i < n ==> r[i] == f
  {
    if n == 0 then [] else [f] + Repeated(f, n - 1)
  }

  /** For every even number of feeds there are valid ones whose every median has its limits crossed. */
  lemma EvenFeedsCanCross(k: nat) returns (feeds: seq<Feed>)
    requires k > 0
    ensures |feeds| == 2 * k && forall f <- feeds :: ValidFeed(f) && InMarket(f, CORE, 1)
    ensures forall m :: IsMedianFeed(feeds, m) ==> Less(m.shortLimit.Inverse(), m.callLimit)
  {
    var (high, low) := (FeedOf(5, 6), FeedOf(1, 2));
    feeds := Repeated(high, k) + Repeated(low, k);
    forall m | IsMedianFeed(feeds, m)
      ensures Less(m.shortLimit.Inverse(), m.callLimit)
    {
      MedianOfHalves(high, low, k, m);
    }
  }

  lemma {:induction false} MedianOfHalves(high: Feed, low: Feed, k: nat, m: Feed)
    requires k > 0 && high == FeedOf(5, 6) && low == FeedOf(1, 2) && IsMedianFeed(Repeated(high, k) + Repeated(low, k), m)
    ensures m.callLimit == high.callLimit && m.shortLimit == low.shortLimit
  {
    var feeds := Repeated(high, k) + Repeated(low, k);
    assert IsMedian(CallLimit, feeds, m) && IsMedian(ShortLimit, feeds, m);
    MedianIsNotLower(CallLimit, Repeated(high, k), Repeated(low, k), low, m);
    MedianIsNotLower(ShortLimit, Repeated(low, k), Repeated(high, k), high, m);
    CountSplits(Repeated(high, k), Repeated(low, k), AtMostFn(ShortLimit, m));
    CountSplits(Repeated(low, k), Repeated(high, k), AtMostFn(ShortLimit, m));
    CountSplits(Repeated(high, k), Repeated(low, k), AtMostFn(CallLimit, m));
    var c :| 0 <= c < |feeds| && SameField(CallLimit, feeds[c], m);
    var s :| 0 <= s < |feeds| && SameField(ShortLimit, feeds[s], m);
  }

  /** The lower one of two halves is not at most more than half. */
  lemma {:induction false} MedianIsNotLower(field: Field, upper: seq<Feed>, lower: seq<Feed>, low: Feed, m: Feed)
    requires |upper| == |lower|
    requires forall f <- upper :: LessBy(field, low, f)
    ensures SameField(field, low, m) ==> Count(upper, AtMostFn(field, m)) + Count(lower, AtMostFn(field, m)) <= |lower|
  {
    if SameField(field, low, m) {
      forall i | 0 <= i < |upper|
        ensures !AtMostFn(field, m)(upper[i])
      {
        assert LessBy(field, low, upper[i]);
      }
      CountNone(upper, AtMostFn(field, m));
      CountAtMostAll(lower, AtMostFn(field, m));
    }
  }
}

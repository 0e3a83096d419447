/**
 Force settlement: settlements of an asset are matched in order of date with the least
 collateralized positions, until the volume allowed for the asset is used up.
 */
module Settling {
  import opened Wrappers
  import opened Assets
  import opened Sums
  import opened Ledger
  import opened Fills
  import opened Matching
  import opened Trading
  import opened TradingSafety
  import opened Minimum

  // ----- the volume that may be settled -----

  /** `max_force_settlement_volume` */
  function MaxVolume(b: BitAsset, supply: int): int {
    if b.maxVolumePercent == 0 then 0
    else if b.maxVolumePercent == HUNDRED_PERCENT then supply + b.forceSettled
    else (supply + b.forceSettled) * b.maxVolumePercent / HUNDRED_PERCENT
  }

  /** The volume allowed is the percentage of what was there before anything was settled, rounded down. */
  lemma VolumeIsShare(b: BitAsset, supply: int)
    ensures var most := MaxVolume(b, supply);
            most * HUNDRED_PERCENT <= (supply + b.forceSettled) * b.maxVolumePercent < (most + 1) * HUNDRED_PERCENT
  {
  }

  predicate IsBit(s: Books, a: AssetId) {
    a in s.assets && s.assets[a].bit.Some?
  }

  function Cap(s: Books, a: AssetId): int
    requires IsBit(s, a)
  {
    MaxVolume(s.assets[a].bit.value, s.assets[a].supply)
  }

  function Settled(s: Books, a: AssetId): nat
    requires IsBit(s, a)
  {
    s.assets[a].bit.value.forceSettled
  }

  // ----- the index of positions by collateral -----

  function Collateralization(o: CallOrder): Price {
    Price(Asset(o.collateral, o.collateralAsset), Asset(o.debt, o.debtAsset))
  }

  /** The positions from the lowest price of the market upwards. */
  function CallsInRange(s: Books, a: AssetId): set<CallKey> {
    set k <- s.calls | s.calls[k].debtAsset == a && Backing(s, a) == Some(s.calls[k].collateralAsset)
                       && a != s.calls[k].collateralAsset
                       && AtMost(MinPrice(s.calls[k].collateralAsset, a), Collateralization(s.calls[k]))
  }

  /** Less collateral per debt first; equal ones by their account. */
  predicate Weaker(s: Books, k: CallKey, l: CallKey)
    requires k in s.calls && l in s.calls
  {
    var (x, y) := (Collateralization(s.calls[k]), Collateralization(s.calls[l]));
    Less(x, y) || (!Less(y, x) && k.0 < l.0)
  }

  predicate IsWeakest(s: Books, ks: set<CallKey>, k: CallKey)
    requires ks <= s.calls.Keys
  {
    k in ks && forall l <- ks :: l != k ==> Weaker(s, k, l)
  }

  /** No position owes zero. */
  ghost predicate Positive(s: Books) {
    forall k <- s.calls :: s.calls[k].debt > 0
  }

  /** A settlement of zero, which validation lets in, is priced at a rate that throws. */
  predicate Priced(s: Books, id: OrderId, p: SettlementPrice) {
    id in s.settlements ==> s.settlements[id].balance > 0 || p.from == 0
  }

  lemma WeakerIsOrder(s: Books, a: AssetId, k: CallKey, l: CallKey, m: CallKey)
    requires Valid(s) && Positive(s) && {k, l, m} <= CallsInRange(s, a)
    ensures k != l ==> (Weaker(s, k, l) <==> !Weaker(s, l, k))
    ensures Weaker(s, k, l) && Weaker(s, l, m) ==> Weaker(s, k, m)
  {
    var (x, y, z) := (Collateralization(s.calls[k]), Collateralization(s.calls[l]), Collateralization(s.calls[m]));
    assert x.Valid() && y.Valid() && z.Valid();
    hide Less, AtMost;
    OrderIsTotal(x, y, z);
    OrderIsTotal(y, x, z);
    OrderIsTotal(z, y, x);
  }

  lemma WeakestExists(s: Books, a: AssetId)
    requires Valid(s) && Positive(s) && CallsInRange(s, a) != {}
    ensures exists k :: IsWeakest(s, CallsInRange(s, a), k)
  {
    hide Weaker, Valid, Positive;
    var ks := CallsInRange(s, a);
    var weaker := (k: CallKey, l: CallKey) => k in s.calls && l in s.calls && Weaker(s, k, l);
    forall k, l | k in ks && l in ks && k != l
      ensures weaker(k, l) <==> !weaker(l, k)
    {
      WeakerIsOrder(s, a, k, l, l);
    }
    forall k, l, m | k in ks && l in ks && m in ks && weaker(k, l) && weaker(l, m)
      ensures weaker(k, m)
    {
      WeakerIsOrder(s, a, k, l, m);
    }
    var k := MinimumExists<CallKey>(ks, weaker);
    assert IsWeakest(s, ks, k);
  }

  lemma WeakestIsUnique(s: Books, a: AssetId, k: CallKey, l: CallKey)
    requires Valid(s) && Positive(s) && IsWeakest(s, CallsInRange(s, a), k) && IsWeakest(s, CallsInRange(s, a), l)
    ensures k == l
  {
  }

  /** What the index finds for an asset. */
  ghost function Weakest(s: Books, a: AssetId): (r: Option<CallKey>)
    ensures r.Some? ==> r.value in s.calls && s.calls[r.value].debtAsset == a
    ensures r.Some? <==> exists k :: IsWeakest(s, CallsInRange(s, a), k)
  {
    if k :| IsWeakest(s, CallsInRange(s, a), k) then Some(k) else None
  }

  lemma NoneWeakest(s: Books, a: AssetId)
    requires CallsInRange(s, a) == {}
    ensures Weakest(s, a).None?
  {
  }

  // ----- settling one order -----

  /** `NoPosition` fails the assertion that an asset always has a position, and `Stuck` would loop for ever. */
  datatype Loop<T> = Done(value: T) | Threw | NoPosition | Stuck

  lemma FeesLeaveSupply(s: Books, a: AssetId, receives: nat)
    requires a in s.assets
    ensures forall x :: SupplyOf(PayFees(s, a, receives).0, x) == SupplyOf(s, x)
  {
  }

  /** One match: the amount leaves the position, the settlement and the supply alike. */
  lemma MatchSettlementFrame(s: Books, k: CallKey, id: OrderId, p: SettlementPrice, max: nat)
    requires k in s.calls && id in s.settlements && s.settlements[id].asset == s.calls[k].debtAsset
    requires MatchSettlement(s, k, id, p, max).Some?
    ensures var (s', amount) := MatchSettlement(s, k, id, p, max).value;
            var (o, r) := (s.calls[k], s.settlements[id]);
            && amount == SettledAmount(s, k, id, max) && SettledFor(amount, p).Some?
            && s' == s.(balances := s'.balances, coreInOrders := s'.coreInOrders, assets := s'.assets,
                        calls := s'.calls, settlements := s'.settlements)
            && SameAssets(s, s')
            && (forall x :: SupplyOf(s', x) == SupplyOf(s, x) - OnlyIf(x == r.asset, amount))
            && s'.calls == (if amount == o.debt then s.calls - {k}
                            else s.calls[k := o.(debt := o.debt - amount, collateral := o.collateral - SettledFor(amount, p).value)])
            && s'.settlements == (if amount == r.balance then s.settlements - {id}
                                  else s.settlements[id := r.(balance := r.balance - amount)])
  {
    hide FillCall, FillSettlement, SettledFor, PayFees;
    var amount := SettledAmount(s, k, id, max);
    var pays := SettledFor(amount, p).value;
    var s1 := FillCall(s, k, pays, amount).value.0;
    FillCallFrame(s, k, pays, amount);
    FillSettlementFrame(s1, id, amount, s.calls[k].collateralAsset, pays);
    FeesLeaveSupply(s1, s.calls[k].collateralAsset, pays);
    var s' := MatchSettlement(s, k, id, p, max).value.0;
    assert SameAssets(s, s1) && SameAssets(s1, s');
    assert forall x :: SupplyOf(s', x) == SupplyOf(s1, x);
  }

  ghost function SettleOrder(s: Books, id: OrderId, p: SettlementPrice, settled: nat, max: int): (r: Loop<(Books, nat)>)
    ensures r.Done? ==> SameAssets(s, r.value.0)
    decreases max - settled
  {
    hide MatchSettlement, SettledFor;
    if settled >= max || id !in s.settlements then Done((s, settled))
    else
      var k := Weakest(s, s.settlements[id].asset);
      if k.None? then NoPosition
      else if MatchSettlement(s, k.value, id, p, max - settled).None? then Threw
      else
        MatchSettlementFrame(s, k.value, id, p, max - settled);
        var (s', amount) := MatchSettlement(s, k.value, id, p, max - settled).value;
        if amount == 0 then Stuck else SettleOrder(s', id, p, settled + amount, max)
  }

  // ----- what settling one order keeps -----

  /** Only the settlement, positions, balances, fees and supply change; the settlement may be gone. */
  ghost predicate OrderSettled(s: Books, id: OrderId, s': Books)
    requires id in s.settlements
  {
    && s' == s.(balances := s'.balances, coreInOrders := s'.coreInOrders, assets := s'.assets,
                calls := s'.calls, settlements := s'.settlements)
    && SameAssets(s, s')
    && s'.settlements == (if id in s'.settlements then s.settlements[id := s'.settlements[id]] else s.settlements - {id})
    && (id in s'.settlements ==>
          s'.settlements[id] == s.settlements[id].(balance := s'.settlements[id].balance)
          && 0 < s'.settlements[id].balance <= s.settlements[id].balance)
  }

  lemma MatchKeepsPositive(s: Books, k: CallKey, id: OrderId, p: SettlementPrice, max: nat)
    requires Positive(s) && k in s.calls && id in s.settlements && s.settlements[id].asset == s.calls[k].debtAsset
    requires MatchSettlement(s, k, id, p, max).Some? && Priced(s, id, p)
    ensures Positive(MatchSettlement(s, k, id, p, max).value.0)
    ensures Priced(MatchSettlement(s, k, id, p, max).value.0, id, p)
    ensures OrderSettled(s, id, MatchSettlement(s, k, id, p, max).value.0)
    ensures max > 0 ==> 0 < MatchSettlement(s, k, id, p, max).value.1 <= max
  {
    hide MatchSettlement;
    MatchSettlementFrame(s, k, id, p, max);
  }

  /** Every match of the loop makes progress. */
  lemma {:induction false} SettleOrderProgresses(s: Books, id: OrderId, p: SettlementPrice, settled: nat, max: int)
    requires Positive(s) && Priced(s, id, p)
    ensures !SettleOrder(s, id, p, settled, max).Stuck?
    decreases max - settled
  {
    hide MatchSettlement, SettledFor, Positive, Priced;
    if settled >= max || id !in s.settlements {
    } else {
      var k := Weakest(s, s.settlements[id].asset);
      if k.Some? && MatchSettlement(s, k.value, id, p, max - settled).Some? {
        MatchKeepsPositive(s, k.value, id, p, max - settled);
        var (s1, amount) := MatchSettlement(s, k.value, id, p, max - settled).value;
        SettleOrderProgresses(s1, id, p, settled + amount, max);
      }
    }
  }

  lemma MatchLeavesSupply(s: Books, k: CallKey, id: OrderId, p: SettlementPrice, max: nat)
    requires k in s.calls && id in s.settlements && s.settlements[id].asset == s.calls[k].debtAsset
    requires MatchSettlement(s, k, id, p, max).Some?
    ensures var (s', amount) := MatchSettlement(s, k, id, p, max).value;
            forall x :: SupplyOf(s', x) == SupplyOf(s, x) - OnlyIf(x == s.settlements[id].asset, amount)
  {
    hide MatchSettlement, SupplyOf, SettledAmount, SettledFor, SameAssets;
    MatchSettlementFrame(s, k, id, p, max);
  }

  /** The volume settled stays within the cap; supply falls by what was settled; the order or the cap is used up. */
  lemma {:induction false} SettleOrderKeeps(s: Books, id: OrderId, p: SettlementPrice, settled: nat, max: int)
    requires Valid(s) && Positive(s) && Priced(s, id, p) && id in s.settlements && settled < max
    requires SettleOrder(s, id, p, settled, max).Done?
    ensures var (s', settled') := SettleOrder(s, id, p, settled, max).value;
            && Valid(s') && Positive(s') && OrderSettled(s, id, s')
            && settled < settled' <= max && (settled' == max || id !in s'.settlements)
            && (forall x :: SupplyOf(s', x) == SupplyOf(s, x) - OnlyIf(x == s.settlements[id].asset, settled' - settled))
    decreases max - settled
  {
    hide MatchSettlement, SettledFor, Positive, Priced, Valid, OrderSettled, SupplyOf, IsWeakest,
         CallsInRange, SameAssets, SettledAmount;
    var k := Weakest(s, s.settlements[id].asset).value;
    MatchKeepsPositive(s, k, id, p, max - settled);
    MatchLeavesSupply(s, k, id, p, max - settled);
    SettleValid(s, k, id, p, max - settled);
    var (s1, amount) := MatchSettlement(s, k, id, p, max - settled).value;
    if settled + amount < max && id in s1.settlements {
      SettleOrderKeeps(s1, id, p, settled + amount, max);
      SettledTwice(s, id, s1, SettleOrder(s1, id, p, settled + amount, max).value.0);
      SettledKeepsAsset(s, id, s1);
    }
  }

  lemma SettledTwice(s: Books, id: OrderId, s1: Books, s2: Books)
    requires id in s.settlements && id in s1.settlements
    requires OrderSettled(s, id, s1) && OrderSettled(s1, id, s2)
    ensures OrderSettled(s, id, s2)
  {
  }

  lemma SettledKeepsAsset(s: Books, id: OrderId, s1: Books)
    requires id in s.settlements && id in s1.settlements && OrderSettled(s, id, s1)
    ensures s1.settlements[id].asset == s.settlements[id].asset
  {
  }

  lemma {:induction false} SettleOrderConserves(
    m: Measure, s: Books, id: OrderId, p: SettlementPrice, settled: nat, max: int)
    requires SettleOrder(s, id, p, settled, max).Done? && IsNet(m)
    ensures Total(m, SettleOrder(s, id, p, settled, max).value.0) == Total(m, s)
    decreases max - settled
  {
    hide MatchSettlement, SettledFor, SettledAmount, SettlementTrade, Total, IsWeakest, CallsInRange, SameAssets;
    if settled >= max || id !in s.settlements {
    } else {
      var k := Weakest(s, s.settlements[id].asset).value;
      MatchSettlementMoves(m, s, k, id, p, max - settled);
      SettlementIsNet(m, s, k, id, p, max - settled);
      var (s1, amount) := MatchSettlement(s, k, id, p, max - settled).value;
      SettleOrderConserves(m, s1, id, p, settled + amount, max);
    }
  }

  // ----- the index of settlements -----

  /** By asset, then by date, then by age. */
  predicate Earlier(s: Books, i: OrderId, j: OrderId)
    requires i in s.settlements && j in s.settlements
  {
    var (x, y) := (s.settlements[i], s.settlements[j]);
    x.asset < y.asset || (x.asset == y.asset && (x.date < y.date || (x.date == y.date && i < j)))
  }

  /** The settlements that `lower_bound` leaves. */
  function Pending(s: Books, from: AssetId): set<OrderId> {
    set id <- s.settlements | s.settlements[id].asset >= from
  }

  predicate IsNext(s: Books, from: AssetId, id: OrderId) {
    id in Pending(s, from) && forall i <- Pending(s, from) :: i != id ==> Earlier(s, id, i)
  }

  lemma NextExists(s: Books, from: AssetId)
    requires Pending(s, from) != {}
    ensures exists id :: IsNext(s, from, id)
  {
    var earlier := (i: OrderId, j: OrderId) => i in s.settlements && j in s.settlements && Earlier(s, i, j);
    var id := MinimumExists(Pending(s, from), earlier);
    assert IsNext(s, from, id);
  }

  ghost function Next(s: Books, from: AssetId): (r: Option<OrderId>)
    ensures r.None? <==> Pending(s, from) == {}
    ensures r.Some? ==> IsNext(s, from, r.value)
  {
    if Pending(s, from) == {} then None
    else
      NextExists(s, from);
      var id :| IsNext(s, from, id);
      Some(id)
  }

  lemma NextIsUnique(s: Books, from: AssetId, i: OrderId, j: OrderId)
    requires IsNext(s, from, i) && IsNext(s, from, j)
    ensures i == j
  {
  }

  // ----- clearing all settlements -----

  /** No price to settle at, or no volume left. */
  predicate Exhausted(s: Books, a: AssetId, max: int)
    requires IsBit(s, a)
  {
    s.assets[a].bit.value.settlementPrice.None? || Settled(s, a) >= max
  }

  /** The cap of the last asset is remembered while the loop stays with it. */
  function CapOf(s: Books, a: AssetId, known: (AssetId, int)): int
    requires IsBit(s, a)
  {
    if known.0 == a then known.1 else Cap(s, a)
  }

  /** The price of a settlement: the feed's, less the discount, for its whole balance. */
  function PriceOf(s: Books, id: OrderId): Option<SettlementPrice>
    requires id in s.settlements && IsBit(s, s.settlements[id].asset)
  {
    var (r, b) := (s.settlements[id], s.assets[s.settlements[id].asset].bit.value);
    if b.settlementPrice.None? || !Between(b.settlementPrice.value, r.asset, b.backing) then None
    else
      match Times(r.balance, r.asset, b.settlementPrice.value)
      case None => None
      case Some(worth) =>
        if b.offsetPercent > HUNDRED_PERCENT then None
        else Some(SettlementPrice(r.balance, Discounted(worth, b.offsetPercent)))
  }

  function Discounted(worth: nat, percent: nat): nat
    requires percent <= HUNDRED_PERCENT
  {
    worth * (HUNDRED_PERCENT - percent) / HUNDRED_PERCENT
  }

  /** The price is the feed's worth of the whole balance, less the discount and rounded down. */
  lemma DiscountRoundsDown(s: Books, id: OrderId)
    requires id in s.settlements && IsBit(s, s.settlements[id].asset) && PriceOf(s, id).Some?
    ensures var (r, b, p) := (s.settlements[id], s.assets[s.settlements[id].asset].bit.value, PriceOf(s, id).value);
            && b.settlementPrice.Some? && b.offsetPercent <= HUNDRED_PERCENT && p.from == r.balance
            && Times(r.balance, r.asset, b.settlementPrice.value).Some?
            && var worth := Times(r.balance, r.asset, b.settlementPrice.value).value;
               && p.to <= worth
               && p.to * HUNDRED_PERCENT <= worth * (HUNDRED_PERCENT - b.offsetPercent) < (p.to + 1) * HUNDRED_PERCENT
  {
    hide Times;
    var (r, b) := (s.settlements[id], s.assets[s.settlements[id].asset].bit.value);
    var worth := Times(r.balance, r.asset, b.settlementPrice.value).value;
    FloorBounds(worth * (HUNDRED_PERCENT - b.offsetPercent), HUNDRED_PERCENT);
    ProductGrows(HUNDRED_PERCENT - b.offsetPercent, HUNDRED_PERCENT, worth);
    CancelProduct(Discounted(worth, b.offsetPercent), worth, HUNDRED_PERCENT);
  }

  /**
   There is a price exactly when the feed is one of the asset and its backing, and
   the balance worth no more than the largest supply.
   */
  lemma PriceSucceeds(s: Books, id: OrderId)
    requires id in s.settlements && IsBit(s, s.settlements[id].asset)
    ensures var (r, b) := (s.settlements[id], s.assets[s.settlements[id].asset].bit.value);
            PriceOf(s, id).Some? <==>
              && b.settlementPrice.Some? && Between(b.settlementPrice.value, r.asset, b.backing) && b.offsetPercent <= HUNDRED_PERCENT
              && var (x, y) := Legs(r.asset, b.settlementPrice.value); r.balance * y < (MAX_SHARE_SUPPLY + 1) * x
  {
    hide Times;
    var (r, b) := (s.settlements[id], s.assets[s.settlements[id].asset].bit.value);
    if b.settlementPrice.Some? { TimesSucceeds(r.balance, r.asset, b.settlementPrice.value); }
  }

  lemma PricedAtFeed(s: Books, id: OrderId)
    requires id in s.settlements && IsBit(s, s.settlements[id].asset) && PriceOf(s, id).Some?
    ensures Priced(s, id, PriceOf(s, id).value)
  {
    hide Times;
  }

  function PutSettled(s: Books, a: AssetId, settled: nat): Books
    requires IsBit(s, a)
  {
    s.(assets := s.assets[a := s.assets[a].(bit := Some(s.assets[a].bit.value.(forceSettled := settled)))])
  }

  ghost function SettleFirst(s: Books, id: OrderId, max: int): Loop<Books>
    requires id in s.settlements && IsBit(s, s.settlements[id].asset)
  {
    var a := s.settlements[id].asset;
    match PriceOf(s, id)
    case None => Threw
    case Some(p) =>
      match SettleOrder(s, id, p, Settled(s, a), max)
      case Done((s', settled)) => Done(PutSettled(s', a, settled))
      case Threw => Threw
      case NoPosition => NoPosition
      case Stuck => Stuck
  }

  /** What holds between the books before and after any number of settlements. */
  ghost predicate Progressed(s: Books, s': Books) {
    && s'.limits == s.limits && s'.shorts == s.shorts && s'.assets.Keys == s.assets.Keys
    && (forall a <- s.assets :: VolumeKept(s, s', a))
    && (forall id <- s'.settlements ::
          && id in s.settlements && s'.settlements[id] == s.settlements[id].(balance := s'.settlements[id].balance)
          && s'.settlements[id].balance <= s.settlements[id].balance)
  }

  /**
   Supply and settled volume add up to what they did, so the cap stays; the volume never shrinks,
   and goes up to the cap at most.
   */
  ghost predicate VolumeKept(s: Books, s': Books, a: AssetId)
    requires a in s.assets && a in s'.assets
  {
    if !IsBit(s, a) then !IsBit(s', a)
    else
      && IsBit(s', a)
      && s'.assets[a].bit.value == s.assets[a].bit.value.(forceSettled := Settled(s', a))
      && s'.assets[a].supply + Settled(s', a) == s.assets[a].supply + Settled(s, a)
      && Cap(s', a) == Cap(s, a)
      && Settled(s, a) <= Settled(s', a)
      && (Settled(s', a) == Settled(s, a) || Settled(s', a) <= Cap(s, a))
  }

  lemma ProgressedTwice(s: Books, s1: Books, s2: Books)
    requires Progressed(s, s1) && Progressed(s1, s2)
    ensures Progressed(s, s2)
  {
  }

  lemma SettledVolumeKept(s: Books, s1: Books, a: AssetId, settled: nat, x: AssetId)
    requires IsBit(s, a) && SameAssets(s, s1) && x in s.assets
    requires Settled(s, a) <= settled <= Cap(s, a)
    requires SupplyOf(s1, x) == SupplyOf(s, x) - OnlyIf(x == a, settled - Settled(s, a))
    ensures VolumeKept(s, PutSettled(s1, a, settled), x)
  {
  }

  /** One turn of the loop that settles: the order is gone or the volume is used up. */
  lemma SettleFirstKeeps(s: Books, id: OrderId, max: int)
    requires Valid(s) && Positive(s) && id in s.settlements && IsBit(s, s.settlements[id].asset)
    requires max == Cap(s, s.settlements[id].asset) && !Exhausted(s, s.settlements[id].asset, max)
    requires SettleFirst(s, id, max).Done?
    ensures var (s', a) := (SettleFirst(s, id, max).value, s.settlements[id].asset);
            && Valid(s') && Positive(s') && Progressed(s, s')
            && (id in s'.settlements ==> IsBit(s', a) && Settled(s', a) == max)
  {
    hide SettleOrder, PriceOf, MaxVolume, VolumeKept, Valid;
    var (a, p) := (s.settlements[id].asset, PriceOf(s, id).value);
    var (s1, settled) := SettleOrder(s, id, p, Settled(s, a), max).value;
    PricedAtFeed(s, id);
    SettleOrderKeeps(s, id, p, Settled(s, a), max);
    forall x <- s.assets
      ensures VolumeKept(s, PutSettled(s1, a, settled), x)
    {
      SettledVolumeKept(s, s1, a, settled, x);
    }
    PutSettledValid(s1, a, settled);
  }

  lemma PutSettledValid(s: Books, a: AssetId, settled: nat)
    requires Valid(s) && IsBit(s, a)
    ensures Valid(PutSettled(s, a, settled))
  {
    forall x
      ensures Backing(PutSettled(s, a, settled), x) == Backing(s, x)
    {
    }
  }

  /** The remembered cap is that of its asset; core, which stands for none, is not market issued. */
  ghost predicate Remembered(s: Books, known: (AssetId, int)) {
    !IsBit(s, CORE) && (known.0 != CORE ==> IsBit(s, known.0) && known.1 == Cap(s, known.0))
  }

  lemma RememberedIsRecomputed(s: Books, a: AssetId, known: (AssetId, int))
    requires IsBit(s, a) && Remembered(s, known)
    ensures CapOf(s, a, known) == Cap(s, a) && Remembered(s, (a, CapOf(s, a, known)))
  {
  }

  lemma RememberedKept(s: Books, s': Books, known: (AssetId, int))
    requires Remembered(s, known) && Progressed(s, s')
    ensures Remembered(s', known)
  {
  }

  /** Whether the next settlement can be settled; a second measure of the loop's progress. */
  ghost function Open(s: Books, from: AssetId, known: (AssetId, int)): nat {
    if Next(s, from).None? then 0
    else
      var a := s.settlements[Next(s, from).value].asset;
      if IsBit(s, a) && !Exhausted(s, a, CapOf(s, a, known)) then 1 else 0
  }

  lemma SkipProgresses(s: Books, from: AssetId, id: OrderId, next: OrderId)
    requires IsNext(s, from, id) && IsNext(s, s.settlements[id].asset + 1, next)
    ensures |Pending(s, s.settlements[next].asset)| < |Pending(s, from)|
  {
    var (rest, all) := (Pending(s, s.settlements[next].asset), Pending(s, from));
    assert id in all && id !in rest && rest <= all;
    SmallerSubset(rest, all);
  }

  lemma SmallerSubset<T>(a: set<T>, b: set<T>)
    requires a < b
    ensures |a| < |b|
  {
    assert b == a + (b - a);
  }

  lemma SettleFirstProgresses(s: Books, from: AssetId, id: OrderId, s': Books, max: int)
    requires IsNext(s, from, id) && Progressed(s, s')
    requires id in s'.settlements ==> IsBit(s', s.settlements[id].asset) && Settled(s', s.settlements[id].asset) == max
    requires IsBit(s, s.settlements[id].asset)
    ensures var a := s.settlements[id].asset;
            |Pending(s', a)| <= |Pending(s, from)| && (|Pending(s', a)| == |Pending(s, from)| ==> Open(s', a, (a, max)) == 0)
  {
    hide VolumeKept;
    var a := s.settlements[id].asset;
    var (rest, all) := (Pending(s', a), Pending(s, from));
    assert rest <= all;
    if rest == all {
      assert id in rest;
      assert s.settlements[Next(s', a).value].asset == a;
    } else {
      SmallerSubset(rest, all);
    }
  }

  /** The loop from an asset on. */
  ghost function ClearFrom(s: Books, from: AssetId, known: (AssetId, int)): Loop<Books>
    requires Valid(s) && Positive(s) && Remembered(s, known)
    decreases |Pending(s, from)|, Open(s, from, known)
  {
    hide Valid, Positive, Remembered, SettleFirst, Progressed, IsNext;
    if Next(s, from).None? then Done(s)
    else
      var id := Next(s, from).value;
      NextIsPending(s, from, id);
      var a := s.settlements[id].asset;
      if !IsBit(s, a) then Threw
      else
        var max := CapOf(s, a, known);
        RememberedIsRecomputed(s, a, known);
        if Exhausted(s, a, max) then
          var after := Next(s, a + 1);
          if after.None? then Done(s)
          else
            NextIsPending(s, a + 1, after.value);
            SkipProgresses(s, from, id, after.value);
            ClearFrom(s, s.settlements[after.value].asset, (a, max))
        else
          match SettleFirst(s, id, max)
          case Done(s') =>
            SettleFirstKeeps(s, id, max);
            SettleFirstProgresses(s, from, id, s', max);
            RememberedKept(s, s', (a, max));
            ClearFrom(s', a, (a, max))
          case r => r
  }

  lemma NextIsPending(s: Books, from: AssetId, id: OrderId)
    requires IsNext(s, from, id)
    ensures id in s.settlements && s.settlements[id].asset >= from
  {
  }

  // ----- what clearing does -----

  /** The settlements of the assets below this one have no price or no volume left. */
  ghost predicate NothingBelow(s: Books, from: AssetId) {
    forall id <- s.settlements :: s.settlements[id].asset < from ==> NothingLeft(s, s.settlements[id].asset)
  }

  predicate NothingLeft(s: Books, a: AssetId) {
    IsBit(s, a) && Exhausted(s, a, Cap(s, a))
  }

  lemma NothingBelowKept(s: Books, from: AssetId, s': Books)
    requires NothingBelow(s, from) && Progressed(s, s')
    ensures NothingBelow(s', from)
  {
  }

  lemma NothingBelowNext(s: Books, from: AssetId, a: AssetId)
    requires NothingBelow(s, from) && a >= from
    requires forall id <- Pending(s, from) :: s.settlements[id].asset < a ==> NothingLeft(s, s.settlements[id].asset)
    ensures NothingBelow(s, a)
  {
  }

  lemma NothingBeforeNext(s: Books, from: AssetId, id: OrderId)
    requires NothingBelow(s, from) && IsNext(s, from, id)
    ensures NothingBelow(s, s.settlements[id].asset)
  {
    hide NothingLeft;
    NothingBelowNext(s, from, s.settlements[id].asset);
  }

  lemma NothingPending(s: Books, from: AssetId)
    requires NothingBelow(s, from) && Pending(s, from) == {}
    ensures forall id <- s.settlements :: NothingLeft(s, s.settlements[id].asset)
  {
    hide NothingLeft;
    forall id <- s.settlements
      ensures NothingLeft(s, s.settlements[id].asset)
    {
      assert id !in Pending(s, from);
    }
  }

  /**
   The loop ends with nothing left to settle: every settlement that remains is of an asset without a
   price, or with all its volume used. On the way supply and settled volume add up to what they did,
   and no volume goes past its cap.
   */
  lemma {:induction false} ClearFromClears(s: Books, from: AssetId, known: (AssetId, int))
    requires Valid(s) && Positive(s) && Remembered(s, known) && NothingBelow(s, from)
    requires ClearFrom(s, from, known).Done?
    ensures var s' := ClearFrom(s, from, known).value;
            && Valid(s') && Positive(s') && Progressed(s, s')
            && forall id <- s'.settlements :: NothingLeft(s', s'.settlements[id].asset)
    decreases |Pending(s, from)|, Open(s, from, known)
  {
    hide Valid, Positive, Remembered, SettleFirst, Progressed, IsNext, NothingBelow, NothingLeft, Exhausted, Cap, CapOf;
    if Next(s, from).None? {
      ProgressedNot(s);
      NothingPending(s, from);
    } else {
      var id := Next(s, from).value;
      NextIsPending(s, from, id);
      NothingBeforeNext(s, from, id);
      var a := s.settlements[id].asset;
      var max := CapOf(s, a, known);
      RememberedIsRecomputed(s, a, known);
      if Exhausted(s, a, max) {
        NothingLeftOf(s, a);
        if Next(s, a + 1).None? {
          ProgressedNot(s);
          NothingPending(s, a + 1);
        } else {
          var after := Next(s, a + 1).value;
          NextIsPending(s, a + 1, after);
          SkipProgresses(s, from, id, after);
          NothingBeforeNext(s, a + 1, after);
          ClearFromClears(s, s.settlements[after].asset, (a, max));
        }
      } else {
        var s1 := SettleFirst(s, id, max).value;
        SettleFirstKeeps(s, id, max);
        SettleFirstProgresses(s, from, id, s1, max);
        RememberedKept(s, s1, (a, max));
        NothingBelowKept(s, a, s1);
        ClearFromClears(s1, a, (a, max));
        ProgressedTwice(s, s1, ClearFrom(s1, a, (a, max)).value);
      }
    }
  }

  lemma NothingLeftOf(s: Books, a: AssetId)
    requires NothingBelow(s, a) && IsBit(s, a) && Exhausted(s, a, Cap(s, a))
    ensures NothingBelow(s, a + 1)
  {
  }

  lemma ProgressedNot(s: Books)
    ensures Progressed(s, s)
  {
  }

  lemma {:induction false} ClearFromConserves(m: Measure, s: Books, from: AssetId, known: (AssetId, int))
    requires Valid(s) && Positive(s) && Remembered(s, known) && IsNet(m)
    requires ClearFrom(s, from, known).Done?
    ensures Total(m, ClearFrom(s, from, known).value) == Total(m, s)
    decreases |Pending(s, from)|, Open(s, from, known)
  {
    hide Valid, Positive, Remembered, SettleFirst, Progressed, IsNext, Exhausted, Cap, CapOf, Total;
    if Next(s, from).Some? {
      var id := Next(s, from).value;
      NextIsPending(s, from, id);
      var a := s.settlements[id].asset;
      var max := CapOf(s, a, known);
      RememberedIsRecomputed(s, a, known);
      if Exhausted(s, a, max) {
        if Next(s, a + 1).Some? {
          var after := Next(s, a + 1).value;
          NextIsPending(s, a + 1, after);
          SkipProgresses(s, from, id, after);
          ClearFromConserves(m, s, s.settlements[after].asset, (a, max));
        }
      } else {
        var s1 := SettleFirst(s, id, max).value;
        SettleFirstKeeps(s, id, max);
        SettleFirstProgresses(s, from, id, s1, max);
        RememberedKept(s, s1, (a, max));
        SettleFirstConserves(m, s, id, max);
        ClearFromConserves(m, s1, a, (a, max));
      }
    }
  }

  lemma SettleFirstConserves(m: Measure, s: Books, id: OrderId, max: int)
    requires id in s.settlements && IsBit(s, s.settlements[id].asset) && IsNet(m)
    requires SettleFirst(s, id, max).Done?
    ensures Total(m, SettleFirst(s, id, max).value) == Total(m, s)
  {
    hide SettleOrder, PriceOf, Total;
    var (a, p) := (s.settlements[id].asset, PriceOf(s, id).value);
    var (s1, settled) := SettleOrder(s, id, p, Settled(s, a), max).value;
    SettleOrderConserves(m, s, id, p, Settled(s, a), max);
    PutSettledConserves(m, s1, a, settled);
  }

  lemma PutSettledConserves(m: Measure, s: Books, a: AssetId, settled: nat)
    requires IsBit(s, a)
    ensures Total(m, PutSettled(s, a, settled)) == Total(m, s)
  {
    SumPut(s.assets, AssetFn(m), a, PutSettled(s, a, settled).assets[a]);
  }

  /** `clear_expired_orders`, as far as settlements go: from the first one on, with no cap known. */
  ghost function ClearSettlements(s: Books): Loop<Books>
    requires Valid(s) && Positive(s) && !IsBit(s, CORE)
  {
    ClearFrom(s, 0, (CORE, 0))
  }

  /** Of supply and settled volume together, the settled volume is at most the allowed percentage. */
  predicate WithinShare(s: Books, a: AssetId, settled: int)
    requires IsBit(s, a)
  {
    var b := s.assets[a].bit.value;
    settled * HUNDRED_PERCENT <= (s.assets[a].supply + b.forceSettled) * b.maxVolumePercent
  }

  lemma CapIsShare(s: Books, a: AssetId, settled: int)
    requires IsBit(s, a)
    ensures settled <= Cap(s, a) <==> WithinShare(s, a, settled)
  {
    hide MaxVolume;
    var b := s.assets[a].bit.value;
    VolumeIsShare(b, s.assets[a].supply);
    var most := MaxVolume(b, s.assets[a].supply);
    if settled <= most {
      ProductGrows(settled, most, HUNDRED_PERCENT);
    } else {
      ProductGrows(most + 1, settled, HUNDRED_PERCENT);
    }
  }

  /** Supply and settled volume add up to what they did; the volume is what it was, or within its share of both. */
  lemma SettledWithinShare(s: Books, s': Books, a: AssetId)
    requires Progressed(s, s') && IsBit(s, a)
    ensures IsBit(s', a) && s'.assets[a].bit.value == s.assets[a].bit.value.(forceSettled := Settled(s', a))
    ensures SupplyOf(s', a) + Settled(s', a) == SupplyOf(s, a) + Settled(s, a) && Settled(s', a) >= Settled(s, a)
    ensures Settled(s', a) == Settled(s, a) || WithinShare(s, a, Settled(s', a))
  {
    hide Cap, WithinShare;
    CapIsShare(s, a, Settled(s', a));
  }

  lemma OneMoreIsTooMuch(s: Books, a: AssetId)
    requires IsBit(s, a)
    ensures NothingLeft(s, a) <==> s.assets[a].bit.value.settlementPrice.None? || !WithinShare(s, a, Settled(s, a) + 1)
  {
    hide Cap, WithinShare;
    CapIsShare(s, a, Settled(s, a) + 1);
  }

  /**
   Clearing ends with nothing left to settle: a settlement that remains is of an asset without a price, or of whose
   share not one more unit is left. No asset has more settled than its share, if it was not so before.
   */
  lemma SettlementIsCleared(s: Books, a: AssetId)
    requires Valid(s) && Positive(s) && !IsBit(s, CORE) && ClearSettlements(s).Done?
    ensures var s' := ClearSettlements(s).value;
            && Valid(s') && Positive(s') && Progressed(s, s')
            && (forall id <- s'.settlements ::
                  var b := s'.settlements[id].asset;
                  IsBit(s', b) && (s'.assets[b].bit.value.settlementPrice.None? || !WithinShare(s', b, Settled(s', b) + 1)))
            && (IsBit(s, a) ==>
                  && IsBit(s', a) && SupplyOf(s', a) + Settled(s', a) == SupplyOf(s, a) + Settled(s, a)
                  && Settled(s', a) >= Settled(s, a)
                  && (Settled(s', a) == Settled(s, a) || WithinShare(s, a, Settled(s', a))))
            && Held(s', a) - Held(s, a) == SupplyOf(s', a) - SupplyOf(s, a)
            && Owed(s', a) - Owed(s, a) == SupplyOf(s', a) - SupplyOf(s, a)
  {
    hide Valid, Positive, ClearFrom, Total, Held, Owed, SupplyOf, Progressed, NothingLeft, WithinShare;
    ClearFromClears(s, 0, (CORE, 0));
    ClearFromConserves(NetHoldings(a), s, 0, (CORE, 0));
    ClearFromConserves(NetDebt(a), s, 0, (CORE, 0));
    var s' := ClearSettlements(s).value;
    HoldingsAreTotal(s, a);
    HoldingsAreTotal(s', a);
    DebtIsTotal(s, a);
    DebtIsTotal(s', a);
    if IsBit(s, a) { SettledWithinShare(s, s', a); }
    forall id <- s'.settlements
      ensures var b := s'.settlements[id].asset;
              IsBit(s', b) && (s'.assets[b].bit.value.settlementPrice.None? || !WithinShare(s', b, Settled(s', b) + 1))
    {
      NothingLeftIsBit(s', s'.settlements[id].asset);
      OneMoreIsTooMuch(s', s'.settlements[id].asset);
    }
  }

  lemma NothingLeftIsBit(s: Books, a: AssetId)
    requires NothingLeft(s, a)
    ensures IsBit(s, a)
  {
  }

  lemma {:induction false} ClearingNeverSticks(s: Books, from: AssetId, known: (AssetId, int))
    requires Valid(s) && Positive(s) && Remembered(s, known)
    ensures !ClearFrom(s, from, known).Stuck?
    decreases |Pending(s, from)|, Open(s, from, known)
  {
    hide Valid, Positive, Remembered, SettleOrder, PriceOf, PutSettled, Progressed, IsNext, Exhausted, Cap, CapOf;
    if Next(s, from).Some? {
      var id := Next(s, from).value;
      NextIsPending(s, from, id);
      var a := s.settlements[id].asset;
      if IsBit(s, a) {
        var max := CapOf(s, a, known);
        RememberedIsRecomputed(s, a, known);
        if Exhausted(s, a, max) {
          if Next(s, a + 1).Some? {
            var after := Next(s, a + 1).value;
            NextIsPending(s, a + 1, after);
            SkipProgresses(s, from, id, after);
            ClearingNeverSticks(s, s.settlements[after].asset, (a, max));
          }
        } else if PriceOf(s, id).Some? {
          PricedAtFeed(s, id);
          SettleOrderProgresses(s, id, PriceOf(s, id).value, Settled(s, a), max);
          if SettleFirst(s, id, max).Done? {
            var s1 := SettleFirst(s, id, max).value;
            SettleFirstKeeps(s, id, max);
            SettleFirstProgresses(s, from, id, s1, max);
            RememberedKept(s, s1, (a, max));
            ClearingNeverSticks(s1, a, (a, max));
          }
        }
      }
    }
  }

  // ----- there is always a position, as long as it has collateral -----

  predicate HasCollateral(o: CallOrder) {
    o.debt <= MAX_SHARE_SUPPLY * o.collateral
  }

  /** The index finds a position exactly when one that owes the asset has collateral for its debt at the lowest price. */
  lemma PositionIsFound(s: Books, a: AssetId)
    requires Valid(s) && Positive(s) && Backing(s, a) != Some(a)
    ensures Weakest(s, a).Some? <==> exists k :: k in s.calls && k.1 == a && HasCollateral(s.calls[k])
  {
    hide IsWeakest;
    forall k <- s.calls
      ensures k in CallsInRange(s, a) <==> k.1 == a && HasCollateral(s.calls[k])
    {
    }
    if k :| IsWeakest(s, CallsInRange(s, a), k) {
      WeakestIsInRange(s, a, k);
    }
    if CallsInRange(s, a) != {} {
      WeakestExists(s, a);
    }
  }

  lemma WeakestIsInRange(s: Books, a: AssetId, k: CallKey)
    requires IsWeakest(s, CallsInRange(s, a), k)
    ensures k in CallsInRange(s, a)
  {
  }

  /** No one holds a negative amount. */
  ghost predicate NoneNegative(s: Books) {
    && (forall id <- s.shorts :: s.shorts[id].availableCollateral >= 0)
    && (forall k <- s.calls :: s.calls[k].collateral >= 0)
    && (forall a <- s.assets :: s.assets[a].fees >= 0)
  }

  lemma HeldAtLeast(s: Books, id: OrderId)
    requires NoneNegative(s) && id in s.settlements
    ensures s.settlements[id].balance <= Held(s, s.settlements[id].asset)
  {
    var m := NetHoldings(s.settlements[id].asset);
    SumAtLeast<(AccountId, AssetId), nat>(s.balances, BalanceFn(m));
    SumAtLeast(s.limits, LimitFn(m));
    SumAtLeast(s.shorts, ShortFn(m));
    SumAtLeast(s.calls, CallFn(m));
    SumAtLeast(s.settlements, SettlementFn(m));
    assert SettlementFn(m)(id, s.settlements[id]) == s.settlements[id].balance;
  }

  /**
   While what is held of an asset is its supply, and its supply is what positions owe, a waiting
   settlement means that there is a position to match it with, if every position has collateral.
   */
  lemma PositionAlwaysExists(s: Books, id: OrderId)
    requires Valid(s) && Positive(s) && NoneNegative(s) && id in s.settlements && s.settlements[id].balance > 0
    requires var a := s.settlements[id].asset;
             && Held(s, a) == SupplyOf(s, a) == Owed(s, a) && Backing(s, a) != Some(a)
             && forall k <- s.calls :: k.1 == a ==> HasCollateral(s.calls[k])
    ensures Weakest(s, s.settlements[id].asset).Some?
  {
    hide Held, SupplyOf, Valid;
    var a := s.settlements[id].asset;
    HeldAtLeast(s, id);
    if forall k <- s.calls :: k.1 != a {
      NothingOwed(s, a);
    }
    PositionIsFound(s, a);
  }

  lemma NothingOwed(s: Books, a: AssetId)
    requires Valid(s) && forall k <- s.calls :: k.1 != a
    ensures Owed(s, a) == 0
  {
    SumZero(s.calls, CallFn(NetDebt(a)));
  }

  /** A settlement that takes all the collateral for a part of the debt leaves a position that is not found again. */
  lemma LastCollateralIsLost(s: Books, k: CallKey, id: OrderId, p: SettlementPrice, max: nat)
    requires Valid(s) && Positive(s) && Priced(s, id, p) && k in s.calls && forall l <- s.calls :: l.1 == k.1 ==> l == k
    requires id in s.settlements && s.settlements[id].asset == k.1 && Backing(s, k.1) != Some(k.1)
    requires MatchSettlement(s, k, id, p, max).Some?
    requires SettledAmount(s, k, id, max) < s.calls[k].debt
    requires SettledFor(SettledAmount(s, k, id, max), p) == Some(s.calls[k].collateral)
    ensures var s' := MatchSettlement(s, k, id, p, max).value.0;
            && k in s'.calls && s'.calls[k].debt == s.calls[k].debt - SettledAmount(s, k, id, max) > 0
            && Weakest(s', k.1).None?
  {
    hide MatchSettlement, SettledAmount, SettledFor;
    MatchSettlementFrame(s, k, id, p, max);
    MatchKeepsPositive(s, k, id, p, max);
    SettleValid(s, k, id, p, max);
    PositionIsFound(MatchSettlement(s, k, id, p, max).value.0, k.1);
  }

  /** A settlement of zero that is due, at a price, is an exception in every block from then on. */
  lemma {:induction false} ZeroSettlementThrows(s: Books, from: AssetId, known: (AssetId, int), id: OrderId)
    requires Valid(s) && Positive(s) && Remembered(s, known) && IsNext(s, from, id) && s.settlements[id].balance == 0
    requires IsBit(s, s.settlements[id].asset)
    requires !Exhausted(s, s.settlements[id].asset, CapOf(s, s.settlements[id].asset, known))
    ensures !ClearFrom(s, from, known).Done?
  {
    hide Valid, Positive, Remembered, CapOf, SettleOrder, PriceOf;
    NextIsUnique(s, from, id, Next(s, from).value);
    if PriceOf(s, id).Some? { ZeroPriceThrows(s, id, CapOf(s, s.settlements[id].asset, known)); }
  }

  lemma {:induction false} ZeroPriceThrows(s: Books, id: OrderId, max: int)
    requires id in s.settlements && IsBit(s, s.settlements[id].asset) && s.settlements[id].balance == 0
    requires PriceOf(s, id).Some? && Settled(s, s.settlements[id].asset) < max
    ensures !SettleOrder(s, id, PriceOf(s, id).value, Settled(s, s.settlements[id].asset), max).Done?
  {
    hide Times, FillCall, FillSettlement;
    PricedAtFeed(s, id);
  }
}

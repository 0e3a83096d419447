/**
 When clearing settlements is safe: while positions are covered at the feed of what they owe, every
 settlement that is due finds a position, and none takes more collateral than its position has.
 */
module SettlementSafety {
  import opened Wrappers
  import opened Assets
  import opened Sums
  import opened Ledger
  import opened Fills
  import opened Matching
  import opened Trading
  import opened TradingSafety
  import opened Settling

  // ----- coverage -----

  /** The collateral is worth the debt, at a price of `x` units of the debt for `y` of the collateral. */
  predicate Covers(o: CallOrder, x: int, y: int) {
    o.debt * y <= o.collateral * x
  }

  predicate HasFeed(s: Books, a: AssetId) {
    IsBit(s, a) && s.assets[a].bit.value.settlementPrice.Some?
    && Between(s.assets[a].bit.value.settlementPrice.value, a, s.assets[a].bit.value.backing)
  }

  function Feed(s: Books, a: AssetId): (int, int)
    requires HasFeed(s, a)
  {
    Legs(a, s.assets[a].bit.value.settlementPrice.value)
  }

  /** Every position in the asset is worth its debt at the feed, whose leg in the asset is within the largest supply. */
  ghost predicate CoveredAtFeed(s: Books, a: AssetId) {
    HasFeed(s, a) ==>
      && Feed(s, a).0 <= MAX_SHARE_SUPPLY
      && forall k <- s.calls :: k.1 == a ==> Covers(s.calls[k], Feed(s, a).0, Feed(s, a).1)
  }

  /** A covered position has collateral for its debt at the lowest price, so the index finds it. */
  lemma CoveredHasCollateral(o: CallOrder, x: int, y: int)
    requires Covers(o, x, y) && 0 < x <= MAX_SHARE_SUPPLY && y > 0
    ensures o.collateral >= 0 && HasCollateral(o)
  {
    ProductGrows(1, y, o.debt);
    assert o.debt <= o.debt * y;
    if o.collateral < 0 {
      ProductIsNat(-o.collateral, x);
      NegativeProduct(o.collateral, x);
    } else {
      ProductGrows(x, MAX_SHARE_SUPPLY, o.collateral);
    }
  }

  lemma NegativeProduct(a: int, b: int)
    requires a < 0 && b > 0
    ensures a * b < 0
  {
  }

  /** A match at a price no better than the feed takes no more collateral than there is, and leaves the rest covered. */
  lemma MatchKeepsCovered(o: CallOrder, amount: nat, pays: nat, p: SettlementPrice, x: int, y: int)
    requires Covers(o, x, y) && amount <= o.debt && x > 0 && y > 0
    requires SettledFor(amount, p) == Some(pays) && p.to * x <= p.from * y
    ensures pays <= o.collateral
    ensures Covers(o.(debt := o.debt - amount, collateral := o.collateral - pays), x, y)
  {
    PaysAtMostFeed(amount, pays, p, x, y);
    ProductGrows(amount, o.debt, y);
    CancelProduct(pays, o.collateral, x);
    assert (o.debt - amount) * y == o.debt * y - amount * y;
    assert (o.collateral - pays) * x == o.collateral * x - pays * x;
  }

  lemma PaysAtMostFeed(amount: nat, pays: nat, p: SettlementPrice, x: int, y: int)
    requires SettledFor(amount, p) == Some(pays) && p.to * x <= p.from * y && x > 0 && y > 0
    ensures pays * x <= amount * y
  {
    FloorBounds(amount * p.to, p.from);
    calc {
      (pays * x) * p.from;
    ==
      (pays * p.from) * x;
    <= { ProductGrows(pays * p.from, amount * p.to, x); }
      (amount * p.to) * x;
    ==
      (p.to * x) * amount;
    <= { ProductGrows(p.to * x, p.from * y, amount); }
      (p.from * y) * amount;
    ==
      (amount * y) * p.from;
    }
    CancelProduct(pays * x, amount * y, p.from);
  }

  // ----- what one match keeps -----

  /** What is held of the asset is its supply, and its supply is what positions owe. */
  ghost predicate Balanced(s: Books, a: AssetId) {
    Held(s, a) == SupplyOf(s, a) == Owed(s, a)
  }

  ghost predicate Secure(s: Books, a: AssetId) {
    Balanced(s, a) && CoveredAtFeed(s, a) && Backing(s, a) != Some(a)
  }

  /** Nothing is negative, no settlement is zero, and the assets of all settlements are secure. */
  ghost predicate SecureBooks(s: Books) {
    NoneNegative(s) && forall id <- s.settlements :: s.settlements[id].balance > 0 && Secure(s, s.settlements[id].asset)
  }

  /** The price gives no more collateral than the feed of the asset. */
  predicate AtMostFeed(s: Books, a: AssetId, p: SettlementPrice) {
    HasFeed(s, a) && p.to * Feed(s, a).0 <= p.from * Feed(s, a).1
  }

  lemma PriceIsAtMostFeed(s: Books, id: OrderId)
    requires id in s.settlements && IsBit(s, s.settlements[id].asset) && PriceOf(s, id).Some?
    ensures AtMostFeed(s, s.settlements[id].asset, PriceOf(s, id).value)
  {
    hide Times;
    var (r, b, p) := (s.settlements[id], s.assets[s.settlements[id].asset].bit.value, PriceOf(s, id).value);
    var worth := Times(r.balance, r.asset, b.settlementPrice.value).value;
    DiscountRoundsDown(s, id);
    TimesRoundsDown(r.balance, r.asset, b.settlementPrice.value);
    ProductGrows(p.to, worth, Feed(s, r.asset).0);
  }

  /** The position that a settlement is matched with pays no more than its collateral. */
  predicate PaysFromCollateral(s: Books, k: CallKey, id: OrderId, p: SettlementPrice, max: nat)
    requires k in s.calls && id in s.settlements
  {
    SettledFor(SettledAmount(s, k, id, max), p).Some? ==>
      SettledFor(SettledAmount(s, k, id, max), p).value <= s.calls[k].collateral
  }

  /** The position and the settlement are of one asset, and the price gives no more than its feed. */
  ghost predicate Meet(s: Books, k: CallKey, id: OrderId, p: SettlementPrice) {
    && k in s.calls && id in s.settlements && s.settlements[id].asset == s.calls[k].debtAsset == k.1
    && AtMostFeed(s, k.1, p)
  }

  ghost predicate CanSettle(s: Books, k: CallKey, id: OrderId, p: SettlementPrice, max: nat) {
    Meet(s, k, id, p) && MatchSettlement(s, k, id, p, max).Some?
  }

  lemma CoveredPays(s: Books, k: CallKey, id: OrderId, p: SettlementPrice, max: nat)
    requires Meet(s, k, id, p) && CoveredAtFeed(s, k.1)
    ensures PaysFromCollateral(s, k, id, p, max)
  {
    hide SettledFor;
    var amount := SettledAmount(s, k, id, max);
    if SettledFor(amount, p).Some? {
      MatchKeepsCovered(s.calls[k], amount, SettledFor(amount, p).value, p, Feed(s, k.1).0, Feed(s, k.1).1);
    }
  }

  lemma PayerStaysCovered(s: Books, k: CallKey, id: OrderId, p: SettlementPrice, max: nat)
    requires CanSettle(s, k, id, p, max) && CoveredAtFeed(s, k.1)
    ensures CoveredAtFeed(MatchSettlement(s, k, id, p, max).value.0, k.1)
  {
    hide MatchSettlement, SettledFor;
    MatchSettlementFrame(s, k, id, p, max);
    var amount := SettledAmount(s, k, id, max);
    MatchKeepsCovered(s.calls[k], amount, SettledFor(amount, p).value, p, Feed(s, k.1).0, Feed(s, k.1).1);
  }

  lemma OthersStayCovered(s: Books, k: CallKey, id: OrderId, p: SettlementPrice, max: nat, a: AssetId)
    requires CanSettle(s, k, id, p, max) && CoveredAtFeed(s, a) && a != k.1
    ensures CoveredAtFeed(MatchSettlement(s, k, id, p, max).value.0, a)
  {
    hide MatchSettlement, SettledFor, SettledAmount;
    MatchSettlementFrame(s, k, id, p, max);
  }

  lemma MatchKeepsBalance(s: Books, k: CallKey, id: OrderId, p: SettlementPrice, max: nat, a: AssetId)
    requires CanSettle(s, k, id, p, max) && Balanced(s, a)
    ensures Balanced(MatchSettlement(s, k, id, p, max).value.0, a)
  {
    hide MatchSettlement, SettlementTrade, Held, Owed, SupplyOf, Total;
    var s' := MatchSettlement(s, k, id, p, max).value.0;
    MatchSettlementMoves(NetHoldings(a), s, k, id, p, max);
    SettlementIsNet(NetHoldings(a), s, k, id, p, max);
    MatchSettlementMoves(NetDebt(a), s, k, id, p, max);
    SettlementIsNet(NetDebt(a), s, k, id, p, max);
    HoldingsAreTotal(s, a);
    HoldingsAreTotal(s', a);
    DebtIsTotal(s, a);
    DebtIsTotal(s', a);
  }

  lemma FeesGrow(s: Books, k: CallKey, id: OrderId, p: SettlementPrice, max: nat)
    requires CanSettle(s, k, id, p, max)
    ensures var s' := MatchSettlement(s, k, id, p, max).value.0;
            s'.assets.Keys == s.assets.Keys && forall a <- s.assets :: s'.assets[a].fees >= s.assets[a].fees
  {
    hide FillCall, FillSettlement, SettledFor;
    var amount := SettledAmount(s, k, id, max);
    var pays := SettledFor(amount, p).value;
    FillCallFrame(s, k, pays, amount);
    FillSettlementFrame(FillCall(s, k, pays, amount).value.0, id, amount, s.calls[k].collateralAsset, pays);
  }

  lemma NoneBecomesNegative(s: Books, k: CallKey, id: OrderId, p: SettlementPrice, max: nat)
    requires CanSettle(s, k, id, p, max) && NoneNegative(s) && PaysFromCollateral(s, k, id, p, max)
    ensures NoneNegative(MatchSettlement(s, k, id, p, max).value.0)
  {
    hide MatchSettlement, SettledFor, SettledAmount;
    MatchSettlementFrame(s, k, id, p, max);
    FeesGrow(s, k, id, p, max);
  }

  lemma MatchKeepsSecure(s: Books, k: CallKey, id: OrderId, p: SettlementPrice, max: nat)
    requires CanSettle(s, k, id, p, max) && SecureBooks(s)
    ensures SecureBooks(MatchSettlement(s, k, id, p, max).value.0)
    ensures AtMostFeed(MatchSettlement(s, k, id, p, max).value.0, k.1, p)
  {
    hide MatchSettlement, SettledFor, Balanced, NoneNegative, CoveredAtFeed, PaysFromCollateral;
    var s' := MatchSettlement(s, k, id, p, max).value.0;
    MatchSettlementFrame(s, k, id, p, max);
    CoveredPays(s, k, id, p, max);
    NoneBecomesNegative(s, k, id, p, max);
    forall i <- s'.settlements
      ensures s'.settlements[i].balance > 0 && Secure(s', s'.settlements[i].asset)
    {
      var a := s'.settlements[i].asset;
      assert Secure(s, a);
      MatchKeepsBalance(s, k, id, p, max, a);
      if a == k.1 {
        PayerStaysCovered(s, k, id, p, max);
      } else {
        OthersStayCovered(s, k, id, p, max, a);
      }
    }
  }

  // ----- the loops -----

  /** A settlement that pays from the collateral does not overdraw its position. */
  lemma PayingIsNoOverdraft(s: Books, k: CallKey, id: OrderId, p: SettlementPrice, max: nat)
    requires k in s.calls && id in s.settlements && PaysFromCollateral(s, k, id, p, max)
    ensures !Overdraws(s, Settle(k, id, p, max))
  {
    hide SettledFor;
  }

  /** At every turn of the loop over positions there is one, and it pays from its collateral. */
  ghost predicate OrderSafe(s: Books, id: OrderId, p: SettlementPrice, settled: nat, max: int)
    decreases max - settled
  {
    settled < max && id in s.settlements ==>
      var k := Weakest(s, s.settlements[id].asset);
      && k.Some? && PaysFromCollateral(s, k.value, id, p, max - settled)
      && !Overdraws(s, Settle(k.value, id, p, max - settled))
      && (MatchSettlement(s, k.value, id, p, max - settled).Some? ==>
            var (s', amount) := MatchSettlement(s, k.value, id, p, max - settled).value;
            amount > 0 ==> OrderSafe(s', id, p, settled + amount, max))
  }

  lemma PositionIsThere(s: Books, id: OrderId, p: SettlementPrice)
    requires Valid(s) && Positive(s) && SecureBooks(s) && id in s.settlements && AtMostFeed(s, s.settlements[id].asset, p)
    ensures Weakest(s, s.settlements[id].asset).Some?
  {
    hide Weakest, Held, SupplyOf, Owed, HasCollateral;
    var a := s.settlements[id].asset;
    forall k <- s.calls | k.1 == a
      ensures HasCollateral(s.calls[k])
    {
      CoveredHasCollateral(s.calls[k], Feed(s, a).0, Feed(s, a).1);
    }
    PositionAlwaysExists(s, id);
  }

  lemma WeakestMeets(s: Books, id: OrderId, p: SettlementPrice, k: CallKey, max: nat)
    requires Valid(s) && SecureBooks(s) && id in s.settlements && AtMostFeed(s, s.settlements[id].asset, p)
    requires k in s.calls && s.calls[k].debtAsset == s.settlements[id].asset
    ensures Meet(s, k, id, p) && PaysFromCollateral(s, k, id, p, max) && !Overdraws(s, Settle(k, id, p, max))
  {
    hide PaysFromCollateral, Balanced, AtMostFeed, CoveredAtFeed, Overdraws;
    CoveredPays(s, k, id, p, max);
    PayingIsNoOverdraft(s, k, id, p, max);
  }

  lemma {:induction false} OrderIsSafe(s: Books, id: OrderId, p: SettlementPrice, settled: nat, max: int)
    requires Valid(s) && Positive(s) && SecureBooks(s)
    requires id in s.settlements ==> AtMostFeed(s, s.settlements[id].asset, p)
    ensures OrderSafe(s, id, p, settled, max) && !SettleOrder(s, id, p, settled, max).NoPosition?
    ensures SettleOrder(s, id, p, settled, max).Done? ==> SecureBooks(SettleOrder(s, id, p, settled, max).value.0)
    decreases max - settled
  {
    hide MatchSettlement, SettledFor, SettledAmount, Positive, Valid, Secure, AtMostFeed, PaysFromCollateral,
         Overdraws, IsWeakest, NoneNegative;
    if settled >= max || id !in s.settlements {
    } else {
      PositionIsThere(s, id, p);
      var k := Weakest(s, s.settlements[id].asset).value;
      WeakestMeets(s, id, p, k, max - settled);
      if MatchSettlement(s, k, id, p, max - settled).Some? {
        MatchKeepsSecure(s, k, id, p, max - settled);
        SettleValid(s, k, id, p, max - settled);
        MatchKeepsPositive(s, k, id, p, max - settled);
        var (s1, amount) := MatchSettlement(s, k, id, p, max - settled).value;
        if id in s1.settlements { SettledKeepsAsset(s, id, s1); }
        OrderIsSafe(s1, id, p, settled + amount, max);
      }
    }
  }

  /** No settlement that the loop comes to fails to find a position, or takes more collateral than there is. */
  ghost predicate ClearSafe(s: Books, from: AssetId, known: (AssetId, int))
    requires Valid(s) && Positive(s) && Remembered(s, known)
    decreases |Pending(s, from)|, Open(s, from, known)
  {
    hide Valid, Positive, Remembered, SettleFirst, Progressed, IsNext, OrderSafe;
    if Next(s, from).None? then true
    else
      var id := Next(s, from).value;
      NextIsPending(s, from, id);
      var a := s.settlements[id].asset;
      if !IsBit(s, a) then true
      else
        var max := CapOf(s, a, known);
        RememberedIsRecomputed(s, a, known);
        if Exhausted(s, a, max) then
          var after := Next(s, a + 1);
          if after.None? then true
          else
            NextIsPending(s, a + 1, after.value);
            SkipProgresses(s, from, id, after.value);
            ClearSafe(s, s.settlements[after.value].asset, (a, max))
        else
          && (PriceOf(s, id).Some? ==> OrderSafe(s, id, PriceOf(s, id).value, Settled(s, a), max))
          && match SettleFirst(s, id, max)
             case Done(s') =>
               SettleFirstKeeps(s, id, max);
               SettleFirstProgresses(s, from, id, s', max);
               RememberedKept(s, s', (a, max));
               ClearSafe(s', a, (a, max))
             case _ => true
  }

  /** Writing the volume back changes nothing that the books' security depends on. */
  lemma PutSettledSecure(s: Books, a: AssetId, settled: nat)
    requires IsBit(s, a) && SecureBooks(s)
    ensures SecureBooks(PutSettled(s, a, settled))
  {
    hide Held, Owed, Total, SupplyOf;
    var s' := PutSettled(s, a, settled);
    forall id <- s'.settlements
      ensures Secure(s', s'.settlements[id].asset)
    {
      var b := s'.settlements[id].asset;
      assert Secure(s, b);
      PutSettledBalanced(s, a, settled, b);
    }
  }

  lemma PutSettledBalanced(s: Books, a: AssetId, settled: nat, b: AssetId)
    requires IsBit(s, a) && Balanced(s, b)
    ensures Balanced(PutSettled(s, a, settled), b)
  {
  }

  lemma {:induction false} SettleFirstIsSafe(s: Books, id: OrderId, max: int)
    requires Valid(s) && Positive(s) && SecureBooks(s) && id in s.settlements && IsBit(s, s.settlements[id].asset)
    ensures PriceOf(s, id).Some? ==> OrderSafe(s, id, PriceOf(s, id).value, Settled(s, s.settlements[id].asset), max)
    ensures !SettleFirst(s, id, max).NoPosition?
    ensures SettleFirst(s, id, max).Done? ==> SecureBooks(SettleFirst(s, id, max).value)
  {
    hide Valid, Positive, SecureBooks, PriceOf, SettleOrder, OrderSafe, AtMostFeed, PutSettled;
    var a := s.settlements[id].asset;
    if PriceOf(s, id).Some? {
      var p := PriceOf(s, id).value;
      PriceIsAtMostFeed(s, id);
      OrderIsSafe(s, id, p, Settled(s, a), max);
      var r := SettleOrder(s, id, p, Settled(s, a), max);
      if r.Done? { PutSettledSecure(r.value.0, a, r.value.1); }
    }
  }

  lemma {:induction false} ClearIsSafe(s: Books, from: AssetId, known: (AssetId, int))
    requires Valid(s) && Positive(s) && Remembered(s, known) && SecureBooks(s)
    ensures ClearSafe(s, from, known) && !ClearFrom(s, from, known).NoPosition?
    decreases |Pending(s, from)|, Open(s, from, known)
  {
    hide Valid, Positive, Remembered, SecureBooks, SettleFirst, Progressed, IsNext, OrderSafe, PriceOf,
         Exhausted, Cap, CapOf;
    if Next(s, from).None? {
    } else {
      var id := Next(s, from).value;
      NextIsPending(s, from, id);
      var a := s.settlements[id].asset;
      if IsBit(s, a) {
        var max := CapOf(s, a, known);
        RememberedIsRecomputed(s, a, known);
        if Exhausted(s, a, max) {
          if Next(s, a + 1).Some? {
            var after := Next(s, a + 1).value;
            NextIsPending(s, a + 1, after);
            SkipProgresses(s, from, id, after);
            ClearIsSafe(s, s.settlements[after].asset, (a, max));
          }
        } else {
          SettleFirstIsSafe(s, id, max);
          if SettleFirst(s, id, max).Done? {
            var s1 := SettleFirst(s, id, max).value;
            SettleFirstKeeps(s, id, max);
            SettleFirstProgresses(s, from, id, s1, max);
            RememberedKept(s, s1, (a, max));
            ClearIsSafe(s1, a, (a, max));
          }
        }
      }
    }
  }

  /**
   If what is held of every asset to be settled is its supply, its supply what positions owe, and every such
   position covered at the feed, then there is a position at every turn of the loops, for whatever is left to
   settle, and no settlement takes more collateral than its position has.
   */
  lemma {:induction false} SettlementsAreSafe(s: Books)
    requires Valid(s) && Positive(s) && NoneNegative(s) && !IsBit(s, CORE)
    requires forall id <- s.settlements ::
               var a := s.settlements[id].asset;
               && s.settlements[id].balance > 0
               && Held(s, a) == SupplyOf(s, a) == Owed(s, a)
               && Backing(s, a) != Some(a) && CoveredAtFeed(s, a)
    ensures Remembered(s, (CORE, 0)) && ClearSafe(s, 0, (CORE, 0))
    ensures !ClearSettlements(s).NoPosition? && !ClearSettlements(s).Stuck?
  {
    hide Valid, Positive, NoneNegative, ClearFrom, ClearSafe, Held, Owed, SupplyOf, CoveredAtFeed;
    ClearIsSafe(s, 0, (CORE, 0));
    ClearingNeverSticks(s, 0, (CORE, 0));
  }

  // ----- books that are balanced, but not covered -----

  /** One position owes ten units of asset 1 for some core; the feed gives `y` units of core for `x` of the asset. */
  function Thin(
    x: nat, y: nat, collateral: nat, balances: map<(AccountId, AssetId), nat>, settlements: map<OrderId,
    Settlement>): Books
    requires x > 0 && y > 0
  {
    var feed := Price(Asset(x, 1), Asset(y, CORE));
    Books(balances, map[], map[], map[(7, 1) := CallOrder(7, 10, 1, collateral, CORE, feed, 1750)], settlements,
          map[CORE := AssetData(1000, 0, false, 0, 0, 0, None),
              1 := AssetData(10, 0, false, 0, 0, 0, Some(BitAsset(CORE, Some(feed), None, 0, HUNDRED_PERCENT, 0)))],
          map[7 := collateral])
  }

  /** Nine units and one are to be settled at nine for five of core, and the position has five. */
  function TwoSettlements(): Books {
    Thin(9, 5, 5, map[], map[0 := Settlement(8, 9, 1, 0), 1 := Settlement(8, 1, 1, 1)])
  }

  lemma OnlyPosition(s: Books, k: CallKey)
    requires Valid(s) && Positive(s) && k in s.calls && (forall l <- s.calls :: l.1 == k.1 ==> l == k)
    requires Backing(s, k.1) != Some(k.1)
    ensures Weakest(s, k.1) == if HasCollateral(s.calls[k]) then Some(k) else None
  {
    hide IsWeakest, HasCollateral;
    PositionIsFound(s, k.1);
  }

  lemma TwoAreValid()
    ensures var s := TwoSettlements();
            && Valid(s) && Positive(s) && NoneNegative(s) && !IsBit(s, CORE) && IsNext(s, 0, 0)
            && Backing(s, 1) == Some(CORE) && s.calls.Keys == {(7, 1)}
            && PriceOf(s, 0) == Some(SettlementPrice(9, 5)) && Cap(s, 1) == 10
  {
  }

  lemma FirstIsMatched()
    ensures var s := TwoSettlements();
            MatchSettlement(s, (7, 1), 0, SettlementPrice(9, 5), 10).Some? &&
            MatchSettlement(s, (7, 1), 0, SettlementPrice(9, 5), 10).value.1 == 9
  {
  }

  /** The first settlement takes all the collateral for nine of the ten units. */
  lemma FirstMatch() returns (s1: Books)
    ensures var s := TwoSettlements();
            && MatchSettlement(s, (7, 1), 0, SettlementPrice(9, 5), 10) == Some((s1, 9))
            && s1.calls == map[(7, 1) := s.calls[(7, 1)].(debt := 1, collateral := 0)]
            && s1.settlements == map[1 := Settlement(8, 1, 1, 1)]
            && SameAssets(s, s1) && s1.assets[1].supply == 1
  {
    hide MatchSettlement;
    var s, k, p := TwoSettlements(), (7, 1), SettlementPrice(9, 5);
    FirstIsMatched();
    MatchSettlementFrame(s, k, 0, p, 10);
    s1 := MatchSettlement(s, k, 0, p, 10).value.0;
    assert SupplyOf(s1, 1) == SupplyOf(s, 1) - OnlyIf(1 == 1, 9);
    assert s1.settlements == map[1 := Settlement(8, 1, 1, 1)];
  }

  lemma FirstIsSettled() returns (s2: Books)
    ensures var s := TwoSettlements();
            && SettleFirst(s, 0, 10) == Done(s2)
            && s2.calls == map[(7, 1) := s.calls[(7, 1)].(debt := 1, collateral := 0)]
            && s2.settlements == map[1 := Settlement(8, 1, 1, 1)]
            && 1 in s2.assets && s2.assets[1].supply == 1
            && s2.assets[1].bit == Some(s.assets[1].bit.value.(forceSettled := 9))
  {
    hide Weakest, MatchSettlement, PriceOf, HasCollateral, TwoSettlements;
    var s, p := TwoSettlements(), SettlementPrice(9, 5);
    TwoAreValid();
    ThinHasCollateral();
    OnlyPosition(s, (7, 1));
    var s1 := FirstMatch();
    TwoHaveAssets();
    assert SettleOrder(s1, 0, p, 9, 10) == Done((s1, 9));
    assert SettleOrder(s, 0, p, 0, 10) == Done((s1, 9));
    s2 := PutSettled(s1, 1, 9);
  }

  lemma ThinHasCollateral()
    ensures HasCollateral(TwoSettlements().calls[(7, 1)])
  {
  }

  lemma TwoHaveAssets()
    ensures var s := TwoSettlements();
            IsBit(s, 1) && Settled(s, 1) == 0 && 0 in s.settlements && s.settlements[0].asset == 1
  {
  }

  /** The second settlement, of the last unit, then finds no position, although one owes that unit. */
  lemma SecondFindsNone(s2: Books)
    requires s2.calls == map[(7, 1) := TwoSettlements().calls[(7, 1)].(debt := 1, collateral := 0)]
    requires s2.settlements == map[1 := Settlement(8, 1, 1, 1)] && Valid(s2) && Positive(s2)
    requires 1 in s2.assets && s2.assets[1].bit == Some(TwoSettlements().assets[1].bit.value.(forceSettled := 9))
    ensures SettleFirst(s2, 1, 10) == NoPosition && IsNext(s2, 1, 1)
  {
    hide Weakest, MatchSettlement;
    OnlyPosition(s2, (7, 1));
    assert PriceOf(s2, 1) == Some(SettlementPrice(1, 0));
    assert SettleOrder(s2, 1, SettlementPrice(1, 0), 9, 10) == NoPosition;
  }

  /** One turn of the loop at a settlement that is due. */
  lemma {:induction false} ClearTurn(s: Books, from: AssetId, known: (AssetId, int), id: OrderId, max: int)
    requires Valid(s) && Positive(s) && Remembered(s, known) && IsNext(s, from, id) && IsBit(s, s.settlements[id].asset)
    requires max == CapOf(s, s.settlements[id].asset, known) && !Exhausted(s, s.settlements[id].asset, max)
    ensures var a := s.settlements[id].asset;
            match SettleFirst(s, id, max)
            case Done(s') =>
              && Valid(s') && Positive(s') && Remembered(s', (a, max))
              && ClearFrom(s, from, known) == ClearFrom(s', a, (a, max))
            case r => ClearFrom(s, from, known) == r
  {
    hide Valid, Positive, Remembered, SettleFirst, Progressed, Exhausted, Cap, CapOf;
    var a := s.settlements[id].asset;
    NextIsUnique(s, from, id, Next(s, from).value);
    RememberedIsRecomputed(s, a, known);
    if SettleFirst(s, id, max).Done? {
      SettleFirstKeeps(s, id, max);
      RememberedKept(s, SettleFirst(s, id, max).value, (a, max));
    }
  }

  /** So the loop fails its assertion on balanced books: coverage cannot be left out of `SettlementsAreSafe`. */
  lemma CollateralRunsOut()
    ensures var s := TwoSettlements();
            && Valid(s) && Positive(s) && NoneNegative(s) && !IsBit(s, CORE) && Backing(s, 1) == Some(CORE)
            && Balanced(s, 1) && SupplyOf(s, 1) == 10
            && ClearSettlements(s) == NoPosition
  {
    hide SettleFirst, Cap, Weakest, PriceOf, Balanced, ClearFrom, TwoSettlements, Valid, Positive,
         NoneNegative, IsNext, Remembered, SupplyOf;
    var s := TwoSettlements();
    TwoAreValid();
    TwoAreBalanced();
    TwoAreDue();
    ClearTurn(s, 0, (CORE, 0), 0, 10);
    var s2 := FirstIsSettled();
    SecondFindsNone(s2);
    ClearTurn(s2, 1, (1, 10), 1, 10);
  }

  lemma TwoAreDue()
    ensures var s := TwoSettlements();
            && Remembered(s, (CORE, 0)) && 0 in s.settlements && s.settlements[0].asset == 1 && IsBit(s, 1)
            && !Exhausted(s, 1, 10)
  {
  }

  lemma TwoAreBalanced()
    ensures Balanced(TwoSettlements(), 1) && SupplyOf(TwoSettlements(), 1) == 10
  {
    hide TwoSettlements;
    TwoAreHeld();
    TwoAreOwed();
  }

  lemma TwoAreHeld()
    ensures Held(TwoSettlements(), 1) == 10
  {
    hide SettlementFn, CallFn, BalanceFn, LimitFn, ShortFn;
    var s, m := TwoSettlements(), NetHoldings(1);
    TwoSum(Settlement(8, 9, 1, 0), Settlement(8, 1, 1, 1));
    ThinHoldsNone();
    assert Sum<(AccountId, AssetId), nat>(s.balances, BalanceFn(m)) == Sum(s.limits, LimitFn(m)) == Sum(s.shorts, ShortFn(m)) == 0;
    assert s.settlements == map[0 := Settlement(8, 9, 1, 0), 1 := Settlement(8, 1, 1, 1)];
    assert FeesOf(s, 1) == 0;
  }

  lemma ThinHoldsNone()
    ensures Sum(TwoSettlements().calls, CallFn(NetHoldings(1))) == 0
  {
    hide Sum;
    SumZero<CallKey, CallOrder>(TwoSettlements().calls, CallFn(NetHoldings(1)));
  }

  lemma TwoAreOwed()
    ensures Owed(TwoSettlements(), 1) == 10 && SupplyOf(TwoSettlements(), 1) == 10
  {
    hide Sum;
    SumSingle<CallKey, CallOrder>(TwoSettlements().calls, CallFn(NetDebt(1)), (7, 1));
  }

  lemma TwoSum(r: Settlement, q: Settlement)
    requires r.asset == q.asset
    ensures Sum<OrderId, Settlement>(map[0 := r, 1 := q], SettlementFn(NetHoldings(r.asset))) == r.balance + q.balance
  {
    var f := SettlementFn(NetHoldings(r.asset));
    SumPut<OrderId, Settlement>(map[0 := r], f, 1, q);
    SumSingle<OrderId, Settlement>(map[0 := r], f, 0);
    assert map[0 := r, 1 := q] == map[0 := r][1 := q];
  }

  // ----- a settlement that overdraws -----

  /**
   Ten units are to be settled at one for one, and the position that owes them has five of core; its owner has
   five more.
   */
  function ShortOfCore(): Books {
    Thin(1, 1, 5, map[(7, CORE) := 5], map[0 := Settlement(8, 10, 1, 0)])
  }

  lemma ShortSettles()
    ensures var s, p := ShortOfCore(), SettlementPrice(10, 10);
            && PriceOf(s, 0) == Some(p) && Step(s, Settle((7, 1), 0, p, 10)).Some?
            && Overdraws(s, Settle((7, 1), 0, p, 10))
  {
    hide PayFees;
  }

  /**
   At the price that the loop takes from the feed the settlement goes through, overdraws the position, and
   leaves a running total wrong.
   */
  lemma OverdraftHappens()
    ensures var s := ShortOfCore();
            && Valid(s) && CoreBacked(s) && Positive(s) && NoneNegative(s)
            && PriceOf(s, 0).Some?
            && var op := Settle((7, 1), 0, PriceOf(s, 0).value, Cap(s, 1));
               && Step(s, op).Some? && Overdraws(s, op)
               && CoreOf(s, 7) == InOrders(s, 7)
               && CoreOf(Step(s, op).value, 7) != InOrders(Step(s, op).value, 7)
  {
    hide Step, Overdraws, PriceOf, CoreOf, InOrders;
    ShortSettles();
    ShortTotal();
    RunningTotalBreaks(ShortOfCore(), Settle((7, 1), 0, SettlementPrice(10, 10), 10), 7);
  }

  lemma ShortTotal()
    ensures CoreOf(ShortOfCore(), 7) == InOrders(ShortOfCore(), 7)
  {
    SumSingle<CallKey, CallOrder>(ShortOfCore().calls, CallFn(CoreGap(7)), (7, 1));
  }
}

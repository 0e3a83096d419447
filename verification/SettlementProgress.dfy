/** Clearing settlements goes through: it ends, and throws nothing, on covered books whose settlements have a price. */
module SettlementProgress {
  import opened Wrappers
  import opened Assets
  import opened Ledger
  import opened Fills
  import opened Matching
  import opened Trading
  import opened TradingSafety
  import opened TradingOutcomes
  import opened Settling
  import opened SettlementSafety

  /** If the asset has a feed, the settlement has a price, and the fee on its backing never exceeds what is received. */
  predicate HasPrice(s: Books, id: OrderId)
    requires id in s.settlements
  {
    var a := s.settlements[id].asset;
    IsBit(s, a) && (s.assets[a].bit.value.settlementPrice.Some? ==>
                      PriceOf(s, id).Some? && FairFees(s, s.assets[a].bit.value.backing))
  }

  ghost predicate AllHavePrices(s: Books) {
    forall id <- s.settlements :: HasPrice(s, id)
  }

  /** A rate that the balance of a settlement, or a part of it, can be traded at. */
  predicate Tradable(s: Books, id: OrderId, p: SettlementPrice) {
    id in s.settlements ==> 0 < s.settlements[id].balance <= p.from && p.to <= MAX_SHARE_SUPPLY
  }

  lemma PriceIsTradable(s: Books, id: OrderId)
    requires id in s.settlements && IsBit(s, s.settlements[id].asset) && PriceOf(s, id).Some?
    requires s.settlements[id].balance > 0
    ensures Tradable(s, id, PriceOf(s, id).value)
  {
    DiscountRoundsDown(s, id);
  }

  lemma PartIsSettled(amount: nat, p: SettlementPrice)
    requires amount <= p.from && p.from > 0 && p.to <= MAX_SHARE_SUPPLY
    ensures SettledFor(amount, p).Some?
  {
    FloorBounds(amount * p.to, p.from);
    ProductGrows(amount, p.from, p.to);
    CancelProduct(amount * p.to / p.from, p.to, p.from);
  }

  lemma MatchGoesThrough(s: Books, k: CallKey, id: OrderId, p: SettlementPrice, max: nat)
    requires Valid(s) && Meet(s, k, id, p) && PaysFromCollateral(s, k, id, p, max) && Tradable(s, id, p)
    requires IsBit(s, k.1) && FairFees(s, s.assets[k.1].bit.value.backing)
    ensures MatchSettlement(s, k, id, p, max).Some?
  {
    hide SettledFor, MatchSettlement, FeeOf;
    var amount := SettledAmount(s, k, id, max);
    PartIsSettled(amount, p);
    var pays := SettledFor(amount, p).value;
    FairFeesFit(s, s.calls[k].collateralAsset, pays);
    SettleSucceeds(s, k, id, p, max, pays);
  }

  lemma MatchKeepsPrices(s: Books, k: CallKey, id: OrderId, p: SettlementPrice, max: nat)
    requires AllHavePrices(s) && CanSettle(s, k, id, p, max) && Positive(s) && Priced(s, id, p)
    ensures AllHavePrices(MatchSettlement(s, k, id, p, max).value.0)
  {
    hide MatchSettlement, Times, FairFees;
    MatchSettlementFrame(s, k, id, p, max);
    MatchKeepsPositive(s, k, id, p, max);
    var s' := MatchSettlement(s, k, id, p, max).value.0;
    forall i <- s'.settlements
      ensures HasPrice(s', i)
    {
      PriceStays(s, s', i);
    }
  }

  /** A settlement of no more than before has a price if it had one. */
  lemma PriceStays(s: Books, s': Books, id: OrderId)
    requires id in s.settlements && id in s'.settlements && HasPrice(s, id) && SameAssets(s, s')
    requires s'.settlements[id] == s.settlements[id].(balance := s'.settlements[id].balance)
    requires s'.settlements[id].balance <= s.settlements[id].balance
    ensures HasPrice(s', id)
  {
    hide Times;
    var a := s.settlements[id].asset;
    var b := s.assets[a].bit.value;
    if b.settlementPrice.Some? {
      FairFeesKept(s, s', b.backing);
      TimesIsMonotone(s'.settlements[id].balance, s.settlements[id].balance, a, b.settlementPrice.value);
    }
  }

  lemma TradableStays(s: Books, id: OrderId, p: SettlementPrice, s': Books)
    requires id in s.settlements && Tradable(s, id, p) && OrderSettled(s, id, s')
    ensures Tradable(s', id, p)
  {
  }

  lemma {:induction false} OrderGoesThrough(s: Books, id: OrderId, p: SettlementPrice, settled: nat, max: int)
    requires Valid(s) && Positive(s) && SecureBooks(s) && AllHavePrices(s) && Tradable(s, id, p) && Priced(s, id, p)
    requires id in s.settlements ==> AtMostFeed(s, s.settlements[id].asset, p)
    ensures SettleOrder(s, id, p, settled, max).Done?
    ensures AllHavePrices(SettleOrder(s, id, p, settled, max).value.0)
    decreases max - settled
  {
    hide MatchSettlement, SettledFor, SettledAmount, Positive, Valid, Secure, AtMostFeed, PaysFromCollateral,
         SecureBooks, FairFees,
         Overdraws, IsWeakest, NoneNegative, PriceOf, Tradable, Priced, OrderSettled;
    if settled >= max || id !in s.settlements {
    } else {
      PositionIsThere(s, id, p);
      var k := Weakest(s, s.settlements[id].asset).value;
      WeakestMeets(s, id, p, k, max - settled);
      FeedOfMeeting(s, k, id, p);
      MatchGoesThrough(s, k, id, p, max - settled);
      MatchKeepsPrices(s, k, id, p, max - settled);
      MatchKeepsSecure(s, k, id, p, max - settled);
      SettleValid(s, k, id, p, max - settled);
      MatchKeepsPositive(s, k, id, p, max - settled);
      var (s1, amount) := MatchSettlement(s, k, id, p, max - settled).value;
      TradableStays(s, id, p, s1);
      if id in s1.settlements { SettledKeepsAsset(s, id, s1); }
      OrderGoesThrough(s1, id, p, settled + amount, max);
    }
  }

  lemma FeedOfMeeting(s: Books, k: CallKey, id: OrderId, p: SettlementPrice)
    requires Meet(s, k, id, p) && AllHavePrices(s)
    ensures s.settlements[id].asset == k.1 && IsBit(s, k.1) && FairFees(s, s.assets[k.1].bit.value.backing)
  {
    hide PriceOf, FairFees;
    assert HasPrice(s, id);
  }

  lemma PutSettledKeepsPrices(s: Books, a: AssetId, settled: nat)
    requires IsBit(s, a) && AllHavePrices(s)
    ensures AllHavePrices(PutSettled(s, a, settled))
  {
    hide Times;
    forall id <- s.settlements
      ensures HasPrice(PutSettled(s, a, settled), id)
    {
      assert HasPrice(s, id);
    }
  }

  lemma {:induction false} SettleFirstGoesThrough(s: Books, id: OrderId, max: int)
    requires Valid(s) && Positive(s) && SecureBooks(s) && AllHavePrices(s) && id in s.settlements
    requires s.settlements[id].balance > 0 && IsBit(s, s.settlements[id].asset)
    requires !Exhausted(s, s.settlements[id].asset, max)
    ensures SettleFirst(s, id, max).Done? && AllHavePrices(SettleFirst(s, id, max).value)
  {
    hide Valid, Positive, SecureBooks, PriceOf, SettleOrder, AtMostFeed, PutSettled, AllHavePrices, Tradable, Priced;
    var a := s.settlements[id].asset;
    PriceIsThere(s, id, max);
    PriceIsAtMostFeed(s, id);
    PriceIsTradable(s, id);
    PricedAtFeed(s, id);
    OrderGoesThrough(s, id, PriceOf(s, id).value, Settled(s, a), max);
    var (s1, settled) := SettleOrder(s, id, PriceOf(s, id).value, Settled(s, a), max).value;
    PutSettledKeepsPrices(s1, a, settled);
  }

  lemma PriceIsThere(s: Books, id: OrderId, max: int)
    requires AllHavePrices(s) && id in s.settlements && IsBit(s, s.settlements[id].asset)
    requires !Exhausted(s, s.settlements[id].asset, max)
    ensures PriceOf(s, id).Some?
  {
    hide PriceOf, FairFees;
    assert HasPrice(s, id);
  }

  lemma {:induction false} ClearGoesThrough(s: Books, from: AssetId, known: (AssetId, int))
    requires Valid(s) && Positive(s) && Remembered(s, known) && SecureBooks(s) && AllHavePrices(s)
    ensures ClearFrom(s, from, known).Done?
    decreases |Pending(s, from)|, Open(s, from, known)
  {
    hide Valid, Positive, Remembered, SecureBooks, SettleFirst, Progressed, IsNext, AllHavePrices, Exhausted, Cap, CapOf;
    if Next(s, from).None? {
    } else {
      var id := Next(s, from).value;
      NextIsPending(s, from, id);
      SettlementIsSound(s, id);
      var a := s.settlements[id].asset;
      var max := CapOf(s, a, known);
      RememberedIsRecomputed(s, a, known);
      if Exhausted(s, a, max) {
        if Next(s, a + 1).Some? {
          var after := Next(s, a + 1).value;
          NextIsPending(s, a + 1, after);
          SkipProgresses(s, from, id, after);
          ClearGoesThrough(s, s.settlements[after].asset, (a, max));
        }
      } else {
        SettleFirstGoesThrough(s, id, max);
        SettleFirstIsSafe(s, id, max);
        var s1 := SettleFirst(s, id, max).value;
        SettleFirstKeeps(s, id, max);
        SettleFirstProgresses(s, from, id, s1, max);
        RememberedKept(s, s1, (a, max));
        ClearGoesThrough(s1, a, (a, max));
      }
    }
  }

  lemma SettlementIsSound(s: Books, id: OrderId)
    requires SecureBooks(s) && AllHavePrices(s) && id in s.settlements
    ensures s.settlements[id].balance > 0 && IsBit(s, s.settlements[id].asset)
  {
    hide PriceOf, FairFees, Secure, NoneNegative;
    assert HasPrice(s, id);
  }

  /**
   On balanced books whose positions are covered at the feed, clearing settlements goes through if every settlement of
   an asset with a feed has a price, and fees on the backing are fair.
   */
  lemma SettlementsGoThrough(s: Books)
    requires Valid(s) && Positive(s) && NoneNegative(s) && !IsBit(s, CORE) && AllHavePrices(s)
    requires forall id <- s.settlements ::
               var a := s.settlements[id].asset;
               && s.settlements[id].balance > 0
               && Held(s, a) == SupplyOf(s, a) == Owed(s, a)
               && Backing(s, a) != Some(a) && CoveredAtFeed(s, a)
    ensures ClearSettlements(s).Done?
  {
    hide Valid, Positive, NoneNegative, ClearFrom, AllHavePrices, Held, Owed, SupplyOf, CoveredAtFeed;
    ClearGoesThrough(s, 0, (CORE, 0));
  }
}

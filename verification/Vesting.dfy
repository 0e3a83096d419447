/**
 Balances that vest by coin-seconds: every second earns a coin-second for every unit of the
 balance, up to the vesting time for all of it, and a withdrawal spends the vesting time for
 each unit.
 */
module Vesting {
  import opened Assets

  /** The period is positive. */
  type Seconds = s: int | s > 0 witness 1

  datatype VestingBalance = VestingBalance(balance: nat, asset: AssetId, period: Seconds, earned: nat, lastUpdate: nat)

  function Min(a: nat, b: nat): nat {
    if a <= b then a else b
  }

  /** `compute_coin_seconds_earned` */
  function EarnedAt(v: VestingBalance, now: nat): nat
    requires v.lastUpdate <= now
  {
    Min(v.earned + v.balance * (now - v.lastUpdate), v.balance * v.period)
  }

  function Updated(v: VestingBalance, now: nat): VestingBalance
    requires v.lastUpdate <= now
  {
    v.(earned := EarnedAt(v, now), lastUpdate := now)
  }

  function AllowedWithdraw(v: VestingBalance, now: nat): nat
    requires v.lastUpdate <= now
  {
    EarnedAt(v, now) / v.period
  }

  predicate IsDepositAllowed(v: VestingBalance, amount: nat, asset: AssetId) {
    asset == v.asset && amount <= MAX_SHARE_SUPPLY && v.balance <= MAX_SHARE_SUPPLY && amount + v.balance <= MAX_SHARE_SUPPLY
  }

  /** Assets are compared by their kind first, and by amount only when that is the same. */
  predicate IsWithdrawAllowed(v: VestingBalance, now: nat, amount: nat, asset: AssetId)
    requires v.lastUpdate <= now
  {
    asset < v.asset || (asset == v.asset && amount <= AllowedWithdraw(v, now))
  }

  function Deposited(v: VestingBalance, now: nat, amount: nat): VestingBalance
    requires v.lastUpdate <= now
  {
    Updated(v, now).(balance := v.balance + amount)
  }

  /** The assertions of a withdrawal. */
  predicate CanPay(v: VestingBalance, now: nat, amount: nat)
    requires v.lastUpdate <= now
  {
    amount <= v.balance && amount * v.period <= EarnedAt(v, now)
  }

  function Withdrawn(v: VestingBalance, now: nat, amount: nat): VestingBalance
    requires v.lastUpdate <= now && CanPay(v, now, amount)
  {
    Updated(v, now).(earned := EarnedAt(v, now) - amount * v.period, balance := v.balance - amount)
  }

  /** Coin-seconds grow by the balance every second, until the balance has vested for a whole period. */
  lemma EarnedIsLeast(v: VestingBalance, now: nat)
    requires v.lastUpdate <= now
    ensures var (grown, all) := (v.earned + v.balance * (now - v.lastUpdate), v.balance * v.period);
            EarnedAt(v, now) <= grown && EarnedAt(v, now) <= all && (EarnedAt(v, now) == grown || EarnedAt(v, now) == all)
  {
  }

  // ----- one withdrawal -----

  /** A withdrawal of the balance's own asset is allowed exactly when its assertions hold. */
  lemma AllowedMeansPaid(v: VestingBalance, now: nat, amount: nat)
    requires v.lastUpdate <= now
    ensures IsWithdrawAllowed(v, now, amount, v.asset) <==> CanPay(v, now, amount)
  {
    QuotientAtMost(amount, EarnedAt(v, now), v.period);
    if amount * v.period <= EarnedAt(v, now) {
      CancelProduct(amount, v.balance, v.period);
    }
  }

  /** Any amount of an asset with a lower id is allowed, whatever was earned; the assertions then need not hold. */
  lemma LowerAssetIsAllowed(v: VestingBalance, now: nat, amount: nat, asset: AssetId)
    requires v.lastUpdate <= now && asset != v.asset
    ensures IsWithdrawAllowed(v, now, amount, asset) <==> asset < v.asset
    ensures amount > v.balance ==> !CanPay(v, now, amount)
  {
  }

  // ----- coin-seconds over time -----

  lemma CapHolds(v: VestingBalance, now: nat)
    requires v.lastUpdate <= now
    ensures EarnedAt(v, now) <= v.balance * v.period
  {
  }

  /** Between two times, no more is earned than the balance for every second. */
  lemma EarningIsBounded(v: VestingBalance, t: nat, u: nat)
    requires v.lastUpdate <= t <= u
    ensures EarnedAt(v, t) <= EarnedAt(v, u) <= EarnedAt(v, t) + v.balance * (u - t)
  {
  }

  /** An update at one time does not alter what has been earned at a later one. */
  lemma UpdateIsUnseen(v: VestingBalance, t: nat, u: nat)
    requires v.lastUpdate <= t <= u
    ensures EarnedAt(Updated(v, t), u) == EarnedAt(v, u)
  {
  }

  /** After one period without a withdrawal or a deposit, all of the balance may be withdrawn. */
  lemma VestsInOnePeriod(v: VestingBalance, now: nat)
    requires v.lastUpdate + v.period <= now
    ensures AllowedWithdraw(v, now) == v.balance
  {
    ProductGrows(v.period, now - v.lastUpdate, v.balance);
    assert EarnedAt(v, now) == v.balance * v.period;
    QuotientAtMost(v.balance, v.balance * v.period, v.period);
    QuotientAtMost(v.balance + 1, v.balance * v.period, v.period);
    MultiplesApart(v.balance, v.balance + 1, v.period);
  }

  // ----- runs -----

  /** What happens to a balance, and when; a touch is an update that changes no balance. */
  datatype Event =
    | Deposit(at: nat, amount: nat, asset: AssetId)
    | Withdraw(at: nat, amount: nat, asset: AssetId)
    | Touch(at: nat)

  /** Whether an event pays out, and what. */
  predicate Pays(v: VestingBalance, e: Event)
    requires v.lastUpdate <= e.at
  {
    e.Withdraw? && e.asset == v.asset && IsWithdrawAllowed(v, e.at, e.amount, e.asset)
  }

  function Payment(v: VestingBalance, e: Event): nat
    requires v.lastUpdate <= e.at
  {
    if Pays(v, e) then e.amount else 0
  }

  /** An event that is not allowed, or throws, changes nothing. */
  function After(v: VestingBalance, e: Event): (r: VestingBalance)
    requires v.lastUpdate <= e.at
    ensures v.lastUpdate <= r.lastUpdate <= e.at
  {
    match e
    case Deposit(at, amount, asset) => if IsDepositAllowed(v, amount, asset) then Deposited(v, at, amount) else v
    case Withdraw(at, amount, asset) =>
      AllowedMeansPaid(v, at, amount);
      if Pays(v, e) then Withdrawn(v, at, amount) else v
    case Touch(at) => Updated(v, at)
  }

  /** What an event brings in: a deposit of the own asset that leaves no more than the largest supply. */
  function Received(v: VestingBalance, e: Event): nat {
    if e.Deposit? && e.asset == v.asset && v.balance + e.amount <= MAX_SHARE_SUPPLY then e.amount else 0
  }

  /** What it takes out: a withdrawal of the own asset that enough coin-seconds were earned for. */
  function Spent(v: VestingBalance, e: Event): nat
    requires v.lastUpdate <= e.at
  {
    if e.Withdraw? && e.asset == v.asset && e.amount * v.period <= EarnedAt(v, e.at) then e.amount else 0
  }

  lemma PaysWhatIsEarned(v: VestingBalance, e: Event)
    requires v.lastUpdate <= e.at && e.Withdraw? && e.asset == v.asset
    ensures Pays(v, e) <==> e.amount * v.period <= EarnedAt(v, e.at)
    ensures Pays(v, e) ==> e.amount <= v.balance
  {
    hide AllowedWithdraw;
    AllowedMeansPaid(v, e.at, e.amount);
    if e.amount * v.period <= EarnedAt(v, e.at) {
      CapHolds(v, e.at);
      CancelProduct(e.amount, v.balance, v.period);
    }
  }

  lemma OnlyOwnAssetPays(v: VestingBalance, e: Event)
    requires v.lastUpdate <= e.at && !(e.Withdraw? && e.asset == v.asset)
    ensures !Pays(v, e)
  {
    hide AllowedWithdraw;
  }

  /** Every event moves the balance by just these, and coin-seconds by what they had grown to and what was spent. */
  lemma EventMoves(v: VestingBalance, e: Event)
    requires v.lastUpdate <= e.at
    ensures var w := After(v, e);
            && w.balance == v.balance + Received(v, e) - Spent(v, e) && Payment(v, e) == Spent(v, e)
            && w.asset == v.asset && w.period == v.period
            && (w == v || (w.lastUpdate == e.at && w.earned == EarnedAt(v, e.at) - Spent(v, e) * v.period))
            && (Received(v, e) + Spent(v, e) > 0 || e.Touch? ==> w.lastUpdate == e.at)
  {
    hide EarnedAt, Pays;
    if e.Withdraw? && e.asset == v.asset {
      PaysWhatIsEarned(v, e);
    } else {
      OnlyOwnAssetPays(v, e);
    }
  }

  predicate InOrder(from: nat, events: seq<Event>)
    decreases |events|
  {
    events != [] ==> from <= events[0].at && InOrder(events[0].at, events[1..])
  }

  function End(from: nat, events: seq<Event>): nat
    decreases |events|
  {
    if events == [] then from else End(events[0].at, events[1..])
  }

  function Run(v: VestingBalance, from: nat, events: seq<Event>): (r: VestingBalance)
    requires v.lastUpdate <= from && InOrder(from, events)
    ensures r.lastUpdate <= End(from, events)
    decreases |events|
  {
    hide After;
    if events == [] then v else Run(After(v, events[0]), events[0].at, events[1..])
  }

  /** All that was paid out over a run. */
  function Paid(v: VestingBalance, from: nat, events: seq<Event>): nat
    requires v.lastUpdate <= from && InOrder(from, events)
    decreases |events|
  {
    if events == [] then 0
    else Payment(v, events[0]) + Paid(After(v, events[0]), events[0].at, events[1..])
  }

  /** All that a run brought in. */
  function Deposits(v: VestingBalance, from: nat, events: seq<Event>): nat
    requires v.lastUpdate <= from && InOrder(from, events)
    decreases |events|
  {
    hide After;
    if events == [] then 0
    else Received(v, events[0]) + Deposits(After(v, events[0]), events[0].at, events[1..])
  }

  /** Over every run, what is left and what was paid out are what there was and what was brought in. */
  lemma {:induction false} BalanceIsConserved(v: VestingBalance, from: nat, events: seq<Event>)
    requires v.lastUpdate <= from && InOrder(from, events)
    ensures Run(v, from, events).balance + Paid(v, from, events) == v.balance + Deposits(v, from, events)
    decreases |events|
  {
    hide After, EarnedAt, Payment, Received, Spent;
    if events == [] {
    } else {
      EventMoves(v, events[0]);
      BalanceIsConserved(After(v, events[0]), events[0].at, events[1..]);
    }
  }

  /** The integral of the balance over the time of a run. */
  function Area(v: VestingBalance, from: nat, events: seq<Event>): nat
    requires v.lastUpdate <= from && InOrder(from, events)
    decreases |events|
  {
    hide After;
    if events == [] then 0
    else
      ProductGrows(0, v.balance, events[0].at - from);
      v.balance * (events[0].at - from) + Area(After(v, events[0]), events[0].at, events[1..])
  }

  lemma EventSpendsWhatItPays(v: VestingBalance, e: Event)
    requires v.lastUpdate <= e.at
    ensures var w := After(v, e);
            && EarnedAt(w, e.at) == EarnedAt(v, e.at) - Payment(v, e) * v.period
            && w.period == v.period && w.asset == v.asset
            && EarnedAt(w, e.at) <= w.balance * w.period
  {
    AllowedMeansPaid(v, e.at, if e.Touch? then 0 else e.amount);
    if e.Deposit? && IsDepositAllowed(v, e.amount, e.asset) {
      assert (v.balance + e.amount) * v.period == v.balance * v.period + e.amount * v.period;
      ProductGrows(v.balance, v.balance + e.amount, v.period);
    } else if e.Withdraw? && Pays(v, e) {
      assert (v.balance - e.amount) * v.period == v.balance * v.period - e.amount * v.period;
      assert After(v, e).earned + After(v, e).balance * 0 == After(v, e).earned;
    }
  }

  /**
   Coin-seconds are never created: what a run paid out, at the price of the period,
   and what is left were all earned.
   */
  lemma {:induction false} EarnedBeforePaid(v: VestingBalance, from: nat, events: seq<Event>)
    requires v.lastUpdate <= from && InOrder(from, events)
    ensures var w, end := Run(v, from, events), End(from, events);
            && w.lastUpdate <= end && w.period == v.period && w.asset == v.asset
            && EarnedAt(w, end) <= w.balance * w.period
            && Paid(v, from, events) * v.period + EarnedAt(w, end) <= EarnedAt(v, from) + Area(v, from, events)
    decreases |events|
  {
    hide EarnedAt, After, Payment;
    if events == [] {
      CapHolds(v, from);
    } else {
      var e, rest := events[0], events[1..];
      EarningIsBounded(v, from, e.at);
      EventSpendsWhatItPays(v, e);
      EarnedBeforePaid(After(v, e), e.at, rest);
      var now, later := Payment(v, e), Paid(After(v, e), e.at, rest);
      assert (now + later) * v.period == now * v.period + later * v.period;
    }
  }

  // ----- touches change nothing -----

  function Untouched(events: seq<Event>): seq<Event> {
    if events == [] then []
    else if events[0].Touch? then Untouched(events[1..]) else [events[0]] + Untouched(events[1..])
  }

  /** Two balances that cannot be told apart from this time on. */
  ghost predicate Alike(v: VestingBalance, w: VestingBalance, from: nat) {
    && v.balance == w.balance && v.asset == w.asset && v.period == w.period
    && v.lastUpdate <= from && w.lastUpdate <= from
    && forall t :: t >= from ==> EarnedAt(v, t) == EarnedAt(w, t)
  }

  lemma AlikeAfter(v: VestingBalance, w: VestingBalance, from: nat, e: Event)
    requires Alike(v, w, from) && from <= e.at
    ensures Alike(After(v, e), After(w, e), e.at) && Payment(v, e) == Payment(w, e)
  {
  }

  lemma TouchedAlike(v: VestingBalance, w: VestingBalance, from: nat, at: nat)
    requires Alike(v, w, from) && from <= at
    ensures Alike(Updated(v, at), Updated(w, at), at) && Alike(Updated(v, at), w, at)
  {
    hide EarnedAt;
    forall t | t >= at
      ensures EarnedAt(Updated(v, at), t) == EarnedAt(v, t) && EarnedAt(Updated(w, at), t) == EarnedAt(w, t)
    {
      UpdateIsUnseen(v, at, t);
      UpdateIsUnseen(w, at, t);
    }
  }

  lemma {:induction false} TouchesDoNotMatter(
    v: VestingBalance, w: VestingBalance, from: nat, early: nat, events: seq<Event>)
    requires Alike(v, w, from) && v.lastUpdate <= from && w.lastUpdate <= early <= from && InOrder(from, events)
    ensures InOrder(early, Untouched(events))
    ensures Paid(v, from, events) == Paid(w, early, Untouched(events))
    ensures Alike(Run(v, from, events), Run(w, early, Untouched(events)), End(from, events))
    decreases |events|
  {
    hide Alike, After, Payment;
    if events == [] {
    } else {
      var e, rest := events[0], events[1..];
      if e.Touch? {
        TouchIsUnpaid(v, e);
        TouchedAlike(v, w, from, e.at);
        TouchesDoNotMatter(After(v, e), w, e.at, early, rest);
      } else {
        AlikeAfter(v, w, from, e);
        TouchesDoNotMatter(After(v, e), After(w, e), e.at, e.at, rest);
        assert Untouched(events)[1..] == Untouched(rest);
      }
    }
  }

  lemma TouchIsUnpaid(v: VestingBalance, e: Event)
    requires e.Touch? && v.lastUpdate <= e.at
    ensures Payment(v, e) == 0 && After(v, e) == Updated(v, e.at)
  {
  }

  /** Updates between deposits and withdrawals alter no later payment, and nothing that can be seen after the run. */
  lemma {:induction false} UpdatesAreUnseen(v: VestingBalance, from: nat, events: seq<Event>)
    requires v.lastUpdate <= from && InOrder(from, events)
    ensures InOrder(from, Untouched(events))
    ensures Paid(v, from, events) == Paid(v, from, Untouched(events))
    ensures Alike(Run(v, from, events), Run(v, from, Untouched(events)), End(from, events))
  {
    TouchesDoNotMatter(v, v, from, from, events);
  }

  /**
   From the creation of a balance on, what was withdrawn times the period and the coin-seconds left are
   at most the integral of the balance over time, and what is left is at most the balance times the period.
   */
  lemma {:induction false} CoinSecondsAreEarned(v: VestingBalance, events: seq<Event>)
    requires v.earned == 0 && InOrder(v.lastUpdate, events)
    ensures var w, end := Run(v, v.lastUpdate, events), End(v.lastUpdate, events);
            && Paid(v, v.lastUpdate, events) * v.period + EarnedAt(w, end) <= Area(v, v.lastUpdate, events)
            && w.earned <= EarnedAt(w, end) <= w.balance * v.period
  {
    hide Run, Paid, Area, InOrder, EarnedAt;
    var w, end := Run(v, v.lastUpdate, events), End(v.lastUpdate, events);
    EarnedBeforePaid(v, v.lastUpdate, events);
    NothingEarnedYet(v);
    EarnedIsWithinCap(v, v.lastUpdate, events);
    StoredIsEarned(w);
    EarningIsBounded(w, w.lastUpdate, end);
  }

  lemma NothingEarnedYet(v: VestingBalance)
    requires v.earned == 0
    ensures EarnedAt(v, v.lastUpdate) == 0 && v.earned <= v.balance * v.period
  {
  }

  lemma StoredIsEarned(v: VestingBalance)
    requires v.earned <= v.balance * v.period
    ensures EarnedAt(v, v.lastUpdate) == v.earned
  {
  }

  /** Stored coin-seconds are within the cap after every event. */
  lemma {:induction false} EarnedIsWithinCap(v: VestingBalance, from: nat, events: seq<Event>)
    requires v.lastUpdate <= from && InOrder(from, events) && v.earned <= v.balance * v.period
    ensures var w := Run(v, from, events); w.earned <= w.balance * w.period
    decreases |events|
  {
    hide After;
    if events == [] {
    } else {
      CapKept(v, events[0]);
      EarnedIsWithinCap(After(v, events[0]), events[0].at, events[1..]);
    }
  }

  lemma CapKept(v: VestingBalance, e: Event)
    requires v.lastUpdate <= e.at && v.earned <= v.balance * v.period
    ensures After(v, e).earned <= After(v, e).balance * After(v, e).period
  {
  }
}
